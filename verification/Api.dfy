/**
 Every request that can change the server's state, as one function from state to state and reply.
 `Next` authenticates the credential and then runs the handler; `Run` is a whole history.
 Requests that only read (identity, rosters, lists, audit, statistics) are covered by `Inspect`
 where they go through the access gate, and change nothing where they do not.
 */
module Api {
  import opened Wrappers
  import opened Roles
  import opened State
  import opened Auth
  import opened Access
  import Storage
  import Text
  import Feed
  import Pushing

  datatype Op =
    | Pull(team: string, since: nat, limit: Option<nat>)
    | Push(team: string, batch: Pushing.Batch)
    | Members(team: string)
    | Redeem(codeLen: nat, sha: string)
    | Leave(team: string)
    | CreateTeam(team: string)
    | Archive(team: string)
    | SetRole(team: string, sub: string, role: string)
    | RemoveRole(team: string, sub: string)
    | PutOrg(settings: OrgSettings)
    | CreateInvite(team: string, sub: string, pinned: Option<string>, expiresAt: Option<string>, newSha: string)
    | RevokeAccess(team: string, sub: string)
    | SetRestricted(team: string, group: string, on: bool)
    | SetGrant(team: string, group: string, sub: string, level: string)
    | RemoveGrant(team: string, group: string, sub: string)
    | Inspect(team: string)

  datatype Request = Request(sha: string, oidc: Option<Claims>, now: string, op: Op)

  datatype Reply = Nothing | Served(page: Feed.Page) | Acknowledged(ack: Pushing.Ack)

  datatype Step = Step(db: Db, out: Result<Reply, ApiError>)

  // ---- sync: what the handlers do once the access gate let the caller through ----------------

  function ViewerOf(db: Db, team: string, sub: string, role: Role): Feed.Viewer {
    Feed.Viewer(
      set f | f in db.restricted && f.team == team :: f.group,
      role.AtLeast(Manager),
      set a | a in db.grants && a.team == team && a.sub == sub :: a.group)
  }

  function PullBody(db: Db, id: Identity, role: Role, team: string, since: nat, limit: Option<nat>): Step {
    if IsArchived(db, team) then Step(db, Err(ArchivedTeam))
    else
      var page := Feed.StoredPage(StoreOf(db, team), since, Feed.Clamp(limit));
      Step(db, Ok(Served(Feed.Serve(ViewerOf(db, team, id.sub, role), page))))
  }

  /** A restricted group takes writes from managers and holders of a write grant only. */
  predicate MayWriteGroup(db: Db, team: string, sub: string, group: string) {
    || GroupFlag(team, group) !in db.restricted
    || (Acl(team, group, sub) in db.grants && db.grants[Acl(team, group, sub)] == "write")
  }

  predicate Blocked(db: Db, team: string, sub: string, role: Role, b: Pushing.Batch) {
    !role.AtLeast(Manager)
    && ((exists s :: s in b.snippets && s.groupId.Some? && !MayWriteGroup(db, team, sub, s.groupId.value))
        || (exists g :: g in b.groups && !MayWriteGroup(db, team, sub, g.id)))
  }

  function PushBody(db: Db, id: Identity, role: Role, team: string, b: Pushing.Batch): Step {
    if IsArchived(db, team) then Step(db, Err(ArchivedTeam))
    else if !Pushing.ValidBatch(team, b) then Step(db, Err(Validation))
    else if Blocked(db, team, id.sub, role, b) then Step(db, Err(Denied))
    else
      var st := StoreOf(db, team);
      Step(db.(stores := db.stores[team := Pushing.Merged(st, b, id.sub, role)]),
           Ok(Acknowledged(Pushing.AckOf(st, b, id.sub, role))))
  }

  /** The roster only reads. */
  function MembersBody(db: Db, team: string): Step {
    if IsArchived(db, team) then Step(db, Err(ArchivedTeam)) else Step(db, Ok(Nothing))
  }

  // ---- self-service membership --------------------------------------------------------------

  function JoinRole(cfg: Config, db: Db, invite: StoredToken): Role {
    PinnedRole(invite.role).UnwrapOr(EffectiveDefault(Org(db), cfg.defaultRole))
  }

  function OpenIn(registry: map<string, bool>, teams: seq<string>): set<string> {
    set t | t in teams && !(t in registry && registry[t])
  }

  /** The teams of an invite that are not archived. */
  function OpenTeams(db: Db, invite: StoredToken): set<string> {
    OpenIn(db.registry, invite.teams)
  }

  /** Joining never lowers a row: each open team gets the larger of the old and the offered role. */
  function JoinedRoles(roles: map<Seat, Role>, sub: string, teams: set<string>, role: Role): map<Seat, Role> {
    roles + map t | t in teams ::
              Seat(t, sub) := (if Seat(t, sub) in roles then Max(roles[Seat(t, sub)], role) else role)
  }

  function Revoked(t: StoredToken, now: string): StoredToken {
    if t.revokedAt.None? then t.(revokedAt := Some(now)) else t
  }

  function RedeemStep(cfg: Config, db: Db, id: Identity, codeLen: nat, sha: string, now: string): Step {
    if codeLen == 0 || codeLen > 512 then Step(db, Err(Validation))
    else if sha !in db.tokens || !Redeemable(db.tokens[sha], now) then Step(db, Err(Validation))
    else
      var invite := db.tokens[sha];
      var teams := OpenTeams(db, invite);
      if teams == {} then Step(db, Err(Validation))
      else
        var joined := db.(roles := JoinedRoles(db.roles, id.sub, teams, JoinRole(cfg, db, invite)));
        if id.tokenSha == Some(sha) then Step(joined, Ok(Nothing))
        else Step(joined.(tokens := db.tokens[sha := Revoked(invite, now)]), Ok(Nothing))
  }

  function WithoutTeam(teams: seq<string>, team: string): seq<string> {
    if teams == [] then []
    else (if teams[0] == team then [] else [teams[0]]) + WithoutTeam(teams[1..], team)
  }

  /** Leaving: the token loses the team, and is revoked when nothing remains. */
  function LeftToken(t: StoredToken, team: string, now: string): StoredToken {
    if t.revokedAt.Some? || team !in t.teams then t
    else
      var remaining := WithoutTeam(t.teams, team);
      if remaining == [] then Revoked(t, now) else t.(teams := remaining)
  }

  /** Revoking access: the token is revoked when the team was its only entry, else it loses the team. */
  function CutToken(t: StoredToken, team: string, now: string): StoredToken {
    if team !in t.teams || t.revokedAt.Some? then t
    else if |t.teams| == 1 then Revoked(t, now)
    else t.(teams := WithoutTeam(t.teams, team))
  }

  function LeftTokens(tokens: map<string, StoredToken>, sub: string, team: string, now: string): map<string, StoredToken> {
    map sha | sha in tokens :: if tokens[sha].sub == sub then LeftToken(tokens[sha], team, now) else tokens[sha]
  }

  function CutTokens(tokens: map<string, StoredToken>, sub: string, team: string, now: string): map<string, StoredToken> {
    map sha | sha in tokens :: if tokens[sha].sub == sub then CutToken(tokens[sha], team, now) else tokens[sha]
  }

  function LeaveStep(cfg: Config, db: Db, id: Identity, team: string, now: string): Step {
    match Resolve(cfg, db, team, id)
    case None => Step(db, Err(Forbidden))
    case Some(role) =>
      if role == Owner && |Owners(db, team)| <= 1 then Step(db, Err(Validation))
      else Step(DropRow(db, team, id.sub).(tokens := LeftTokens(db.tokens, id.sub, team, now)), Ok(Nothing))
  }

  // ---- teams and roles ----------------------------------------------------------------------

  predicate ValidTeamName(team: string) {
    && 1 <= |team| <= 64
    && forall c :: c in team ==>
         'a' <= c <= 'z' || 'A' <= c <= 'Z' || '0' <= c <= '9' || c == '.' || c == '_' || c == '-'
  }

  /** The teams a caller has something to do with: its credential's and its rows'. */
  function MyTeams(db: Db, id: Identity): set<string> {
    (set t | t in id.teams) + (set seat | seat in db.roles && seat.sub == id.sub :: seat.team)
  }

  predicate HoldsSomewhere(cfg: Config, db: Db, id: Identity, min: Role) {
    exists t :: t in MyTeams(db, id) && Resolve(cfg, db, t, id).Some? && Resolve(cfg, db, t, id).value.AtLeast(min)
  }

  predicate MayCreateTeams(cfg: Config, db: Db, id: Identity) {
    var policy := Org(db).teamCreation;
    if policy == "owners" then HoldsSomewhere(cfg, db, id, Owner)
    else if policy == "admins" then HoldsSomewhere(cfg, db, id, Admin)
    else true
  }

  function CreateTeamStep(cfg: Config, db: Db, id: Identity, team: string): Step {
    if !ValidTeamName(team) then Step(db, Err(Validation))
    else if !MayCreateTeams(cfg, db, id) then Step(db, Err(Forbidden))
    else if team !in db.registry then
      Step(SetRow(db.(registry := db.registry[team := false]), team, id.sub, Owner), Ok(Nothing))
    else if IsArchived(db, team) && Resolve(cfg, db, team, id) == Some(Owner) then
      Step(db.(registry := db.registry[team := false]), Ok(Nothing))
    else Step(db, Err(Validation))
  }

  function ArchiveBody(db: Db, team: string): Step {
    Step(db.(registry := db.registry[team := true]), Ok(Nothing))
  }

  function SetRoleBody(db: Db, caller: Role, team: string, sub: string, role: string): Step {
    match RoleFromStr(role)
    case None => Step(db, Err(Validation))
    case Some(wanted) =>
      if MayAdminister(caller, RoleRow(db, team, sub).UnwrapOr(Reader), wanted)
      then Step(SetRow(db, team, sub, wanted), Ok(Nothing))
      else Step(db, Err(Forbidden))
  }

  function RemoveRoleBody(db: Db, caller: Role, team: string, sub: string): Step {
    if MayAdminister(caller, RoleRow(db, team, sub).UnwrapOr(Reader), Reader)
    then Step(DropRow(db, team, sub), Ok(Nothing))
    else Step(db, Err(Forbidden))
  }

  predicate ValidOrg(o: OrgSettings) {
    && (o.defaultRole.Some? ==> RoleFromStr(o.defaultRole.value).Some?)
    && (o.teamCreation == "owners" || o.teamCreation == "admins" || o.teamCreation == "bootstrap")
    && (o.exportTeamGroups == "open" || o.exportTeamGroups == "managers" || o.exportTeamGroups == "disabled")
    && 1 <= o.auditRetentionDays <= 3650
  }

  function PutOrgStep(cfg: Config, db: Db, id: Identity, settings: OrgSettings): Step {
    if !HoldsSomewhere(cfg, db, id, Owner) then Step(db, Err(Forbidden))
    else if !ValidOrg(settings) then Step(db, Err(Validation))
    else Step(db.(org := Some(settings)), Ok(Nothing))
  }

  // ---- invites and revocation -----------------------------------------------------------------

  function CreateInviteBody(
    db: Db, caller: Role, team: string, sub: string, pinned: Option<string>,
    expiresAt: Option<string>, newSha: string): Step
  {
    if sub == "" || Text.Utf8Len(sub) > 256 then Step(db, Err(Validation))
    else if pinned.Some? && RoleFromStr(pinned.value).None? then Step(db, Err(Validation))
    else if pinned.Some? && !InviteCeiling(caller).AtLeast(RoleFromStr(pinned.value).value) then Step(db, Err(Forbidden))
    else if newSha in db.tokens then Step(db, Err(StorageFailure))
    else
      Step(db.(tokens := db.tokens[newSha := StoredToken(sub, [team], pinned, expiresAt, None)]), Ok(Nothing))
  }

  function RevokeAccessBody(db: Db, caller: Role, team: string, sub: string, now: string): Step {
    if MayAdminister(caller, RoleRow(db, team, sub).UnwrapOr(Reader), Reader)
    then Step(DropRow(db, team, sub).(tokens := CutTokens(db.tokens, sub, team, now)), Ok(Nothing))
    else Step(db, Err(Forbidden))
  }

  // ---- restricted groups ------------------------------------------------------------------------

  function SetRestrictedBody(db: Db, team: string, group: string, on: bool): Step {
    var flag := GroupFlag(team, group);
    Step(db.(restricted := if on then db.restricted + {flag} else db.restricted - {flag}), Ok(Nothing))
  }

  function SetGrantBody(db: Db, acl: Acl, level: string): Step {
    if level == "read" || level == "write" then Step(db.(grants := db.grants[acl := level]), Ok(Nothing))
    else Step(db, Err(Validation))
  }

  function RemoveGrantBody(db: Db, acl: Acl): Step {
    Step(db.(grants := db.grants - {acl}), Ok(Nothing))
  }

  // ---- one request, and a history -----------------------------------------------------------------

  /** Requests on one team that start at the access gate. */
  predicate Gated(op: Op) {
    !op.Redeem? && !op.Leave? && !op.CreateTeam? && !op.PutOrg?
  }

  /** The minimum role each gated handler asks for. */
  function GateLevel(op: Op): Role {
    if op.Pull? || op.Members? then Reader
    else if op.Push? then Writer
    else if op.Archive? then Owner
    else Manager
  }

  function GateOf(cfg: Config, db: Db, id: Identity, op: Op): Gate
    requires Gated(op)
  {
    EnsureAccess(cfg, db, op.team, id, GateLevel(op))
  }

  /** What a gated handler does once the gate has let `id` through as `role`. */
  function Body(db: Db, id: Identity, role: Role, now: string, op: Op): Step
    requires Gated(op)
  {
    match op
    case Pull(team, since, limit) => PullBody(db, id, role, team, since, limit)
    case Push(team, batch) => PushBody(db, id, role, team, batch)
    case Members(team) => MembersBody(db, team)
    case Archive(team) => ArchiveBody(db, team)
    case SetRole(team, sub, wanted) => SetRoleBody(db, role, team, sub, wanted)
    case RemoveRole(team, sub) => RemoveRoleBody(db, role, team, sub)
    case CreateInvite(team, sub, pinned, expiresAt, newSha) =>
      CreateInviteBody(db, role, team, sub, pinned, expiresAt, newSha)
    case RevokeAccess(team, sub) => RevokeAccessBody(db, role, team, sub, now)
    case SetRestricted(team, group, on) => SetRestrictedBody(db, team, group, on)
    case SetGrant(team, group, sub, level) => SetGrantBody(db, Acl(team, group, sub), level)
    case RemoveGrant(team, group, sub) => RemoveGrantBody(db, Acl(team, group, sub))
    case Inspect(_) => Step(db, Ok(Nothing))
  }

  function Handle(cfg: Config, db: Db, id: Identity, now: string, op: Op): Step {
    if Gated(op) then
      var gate := GateOf(cfg, db, id, op);
      match gate.role
      case Err(e) => Step(gate.db, Err(e))
      case Ok(role) => Body(gate.db, id, role, now, op)
    else
      match op
      case Redeem(codeLen, sha) => RedeemStep(cfg, db, id, codeLen, sha, now)
      case Leave(team) => LeaveStep(cfg, db, id, team, now)
      case CreateTeam(team) => CreateTeamStep(cfg, db, id, team)
      case PutOrg(settings) => PutOrgStep(cfg, db, id, settings)
  }

  function Next(cfg: Config, db: Db, req: Request): Step {
    match Authenticate(cfg, db, req.sha, req.oidc, req.now)
    case Err(e) => Step(db, Err(e))
    case Ok(id) => Handle(cfg, db, id, req.now, req.op)
  }

  function Run(cfg: Config, db: Db, reqs: seq<Request>): Db {
    if reqs == [] then db
    else Next(cfg, Run(cfg, db, reqs[..|reqs| - 1]), reqs[|reqs| - 1]).db
  }

  // ---- what a request leaves alone --------------------------------------------------------------

  /** Requests that set or drop somebody's row on purpose. */
  predicate Administers(op: Op) {
    op.SetRole? || op.RemoveRole? || op.RevokeAccess?
  }

  lemma BodyRoles(db: Db, id: Identity, role: Role, now: string, op: Op)
    requires Gated(op) && !Administers(op)
    ensures Body(db, id, role, now, op).db.roles == db.roles
  {
  }

  lemma BodyTokens(db: Db, id: Identity, role: Role, now: string, op: Op)
    requires Gated(op) && !op.CreateInvite? && !op.RevokeAccess?
    ensures Body(db, id, role, now, op).db.tokens == db.tokens
  {
  }

  lemma BodyStores(db: Db, id: Identity, role: Role, now: string, op: Op)
    requires Gated(op) && !op.Push?
    ensures Body(db, id, role, now, op).db.stores == db.stores
  {
  }

  /**
   Beyond the gate only the administrative requests touch rows, only inviting and revoking touch
   tokens, and only a push touches records.
   */
  lemma BodyFrame(db: Db, id: Identity, role: Role, now: string, op: Op)
    requires Gated(op)
    ensures !Administers(op) ==> Body(db, id, role, now, op).db.roles == db.roles
    ensures !op.CreateInvite? && !op.RevokeAccess? ==> Body(db, id, role, now, op).db.tokens == db.tokens
    ensures !op.Push? ==> Body(db, id, role, now, op).db.stores == db.stores
  {
    if !Administers(op) {
      BodyRoles(db, id, role, now, op);
    }
    if !op.CreateInvite? && !op.RevokeAccess? {
      BodyTokens(db, id, role, now, op);
    }
    if !op.Push? {
      BodyStores(db, id, role, now, op);
    }
  }

  lemma GateFrame(cfg: Config, db: Db, id: Identity, op: Op)
    requires Gated(op)
    ensures GateOf(cfg, db, id, op).db.(roles := db.roles) == db
  {
  }

  lemma RedeemFrame(cfg: Config, db: Db, id: Identity, codeLen: nat, sha: string, now: string)
    ensures RedeemStep(cfg, db, id, codeLen, sha, now).db.stores == db.stores
  {
  }

  lemma LeaveFrame(cfg: Config, db: Db, id: Identity, team: string, now: string)
    ensures LeaveStep(cfg, db, id, team, now).db.stores == db.stores
  {
  }

  lemma CreateTeamFrame(cfg: Config, db: Db, id: Identity, team: string)
    ensures CreateTeamStep(cfg, db, id, team).db.stores == db.stores
    ensures CreateTeamStep(cfg, db, id, team).db.tokens == db.tokens
  {
  }

  lemma PutOrgFrame(cfg: Config, db: Db, id: Identity, settings: OrgSettings)
    ensures PutOrgStep(cfg, db, id, settings).db == db.(org := PutOrgStep(cfg, db, id, settings).db.org)
  {
  }

  lemma UngatedFrame(cfg: Config, db: Db, id: Identity, now: string, op: Op)
    requires !Gated(op)
    ensures Handle(cfg, db, id, now, op).db.stores == db.stores
    ensures op.CreateTeam? || op.PutOrg? ==> Handle(cfg, db, id, now, op).db.tokens == db.tokens
  {
    match op
    case Redeem(codeLen, sha) => RedeemFrame(cfg, db, id, codeLen, sha, now);
    case Leave(team) => LeaveFrame(cfg, db, id, team, now);
    case CreateTeam(team) => CreateTeamFrame(cfg, db, id, team);
    case PutOrg(settings) => PutOrgFrame(cfg, db, id, settings);
  }

  // ---- what a refused request leaves behind --------------------------------------------------------

  lemma RefusedBodyChangesNothing(db: Db, id: Identity, role: Role, now: string, op: Op)
    requires Gated(op) && Body(db, id, role, now, op).out.Err?
    ensures Body(db, id, role, now, op).db == db
  {
  }

  lemma RefusedUngatedChangesNothing(cfg: Config, db: Db, id: Identity, now: string, op: Op)
    requires !Gated(op) && Handle(cfg, db, id, now, op).out.Err?
    ensures Handle(cfg, db, id, now, op).db == db
  {
  }

  /**
   A refused request changes the state if and only if it is a known caller's request on a team that
   the caller's credential lists and nobody owns, in bootstrap mode. What it changes then is that the
   caller owns the team.
   */
  lemma RefusalCrownsIff(cfg: Config, db: Db, req: Request)
    requires Next(cfg, db, req).out.Err?
    ensures var who := Authenticate(cfg, db, req.sha, req.oidc, req.now);
      Next(cfg, db, req).db ==
        if who.Ok? && Gated(req.op) && Bootstraps(db, req.op.team, who.value)
        then SetRow(db, req.op.team, who.value.sub, Owner) else db
    ensures var who := Authenticate(cfg, db, req.sha, req.oidc, req.now);
      Next(cfg, db, req).db != db <==> who.Ok? && Gated(req.op) && Bootstraps(db, req.op.team, who.value)
  {
    var who := Authenticate(cfg, db, req.sha, req.oidc, req.now);
    if who.Ok? {
      var id := who.value;
      if Gated(req.op) {
        GateEffect(cfg, db, req.op.team, id, GateLevel(req.op));
        var gate := GateOf(cfg, db, id, req.op);
        if gate.role.Ok? {
          RefusedBodyChangesNothing(gate.db, id, gate.role.value, req.now, req.op);
        }
        OwnersByRow(db.roles, req.op.team, id.sub);
      } else {
        RefusedUngatedChangesNothing(cfg, db, id, req.now, req.op);
      }
    }
  }

  /** Such a refusal: pulling an archived team that nobody owns. */
  lemma ArchivedPullCrowns(cfg: Config, db: Db, req: Request, sub: string, team: string)
    requires req.op == Pull(team, 0, None) && IsArchived(db, team)
    requires FromStatic(cfg.staticTokens, req.sha) == None && req.sha !in db.tokens && req.oidc == Some(Claims(sub, [team]))
    requires Org(db).teamCreation == "bootstrap" && Owners(db, team) == {}
    ensures Next(cfg, db, req) == Step(SetRow(db, team, sub, Owner), Err(ArchivedTeam))
    ensures Owners(Next(cfg, db, req).db, team) == {sub}
  {
    var id := Identity(sub, [team], None, None);
    assert Authenticate(cfg, db, req.sha, req.oidc, req.now) == Ok(id);
    assert team in id.teams;
    GateEffect(cfg, db, team, id, Reader);
    OwnersAfterSet(db, team, sub, Owner, team);
  }

  /** A redemption the server goes through with. */
  predicate RedeemAccepted(db: Db, codeLen: nat, sha: string, now: string) {
    && 1 <= codeLen <= 512 && sha in db.tokens && Redeemable(db.tokens[sha], now)
    && OpenTeams(db, db.tokens[sha]) != {}
  }

  lemma RedeemOutcome(cfg: Config, db: Db, id: Identity, codeLen: nat, sha: string, now: string)
    ensures var step := RedeemStep(cfg, db, id, codeLen, sha, now);
      if RedeemAccepted(db, codeLen, sha, now) then
        && step.out == Ok(Nothing)
        && step.db.roles == JoinedRoles(db.roles, id.sub, OpenTeams(db, db.tokens[sha]), JoinRole(cfg, db, db.tokens[sha]))
        && step.db.tokens ==
             (if id.tokenSha == Some(sha) then db.tokens else db.tokens[sha := Revoked(db.tokens[sha], now)])
        && step.db.(roles := db.roles, tokens := db.tokens) == db
      else step == Step(db, Err(Validation))
  {
  }
}
