/**
 The server's whole state, one map per table of the SQLite store, and who may do what in it.

 Every handler is one atomic step over this state; storage calls do not fail, except the insert
 of a token whose digest is already taken. Credentials are identified with their SHA-256 digests.
 */
module State {
  import opened Wrappers
  import opened Roles
  import Storage

  /** A row of the `roles` table is keyed by a team and a subject. */
  datatype Seat = Seat(team: string, sub: string)

  datatype StoredToken = StoredToken(
    sub: string, teams: seq<string>, role: Option<string>,
    expiresAt: Option<string>, revokedAt: Option<string>)

  datatype OrgSettings = OrgSettings(
    defaultRole: Option<string>, teamCreation: string, exportTeamGroups: string, auditRetentionDays: nat)

  const DEFAULT_ORG := OrgSettings(None, "bootstrap", "open", 365)

  datatype GroupFlag = GroupFlag(team: string, group: string)

  datatype Acl = Acl(team: string, group: string, sub: string)

  datatype Db = Db(
    roles: map<Seat, Role>,
    tokens: map<string, StoredToken>,
    registry: map<string, bool>,
    org: Option<OrgSettings>,
    restricted: set<GroupFlag>,
    grants: map<Acl, string>,
    stores: map<string, Storage.TeamStore>)

  datatype Identity = Identity(
    sub: string, teams: seq<string>, pinnedRole: Option<Role>, tokenSha: Option<string>)

  datatype StaticToken = StaticToken(sha: string, sub: string, teams: seq<string>, role: Option<string>)

  /** What the identity provider says about a credential that is neither static nor stored. */
  datatype Claims = Claims(sub: string, teams: seq<string>)

  datatype Config = Config(staticTokens: seq<StaticToken>, defaultRole: Role)

  datatype ApiError = Unauthorized | Forbidden | ArchivedTeam | Denied | Validation | StorageFailure

  function Org(db: Db): OrgSettings {
    db.org.UnwrapOr(DEFAULT_ORG)
  }

  function IsArchived(db: Db, team: string): bool {
    team in db.registry && db.registry[team]
  }

  function StoreOf(db: Db, team: string): Storage.TeamStore {
    if team in db.stores then db.stores[team] else Storage.EMPTY
  }

  function RoleRow(db: Db, team: string, sub: string): Option<Role> {
    if Seat(team, sub) in db.roles then Some(db.roles[Seat(team, sub)]) else None
  }

  function OwnersIn(roles: map<Seat, Role>, team: string): set<string> {
    set seat | seat in roles && seat.team == team && roles[seat] == Owner :: seat.sub
  }

  /** The subjects with an owner row in `team`. */
  function Owners(db: Db, team: string): set<string> {
    OwnersIn(db.roles, team)
  }

  lemma OwnersByRow(roles: map<Seat, Role>, team: string, sub: string)
    ensures sub in OwnersIn(roles, team) <==> Seat(team, sub) in roles && roles[Seat(team, sub)] == Owner
  {
  }

  function PinnedRole(role: Option<string>): Option<Role> {
    match role
    case Some(s) => RoleFromStr(s)
    case None => None
  }
}

/** Which identity a presented credential stands for. */
module Auth {
  import opened Wrappers
  import opened Roles
  import opened State
  import Text

  predicate Expired(t: StoredToken, now: string) {
    t.expiresAt.Some? && Text.Less(t.expiresAt.value, now)
  }

  /** A stored token that authenticates at `now`. */
  predicate Live(t: StoredToken, now: string) {
    t.revokedAt.None? && !Expired(t, now)
  }

  /** A stored token that can be redeemed at `now`: strictly before its expiry. */
  predicate Redeemable(t: StoredToken, now: string) {
    t.revokedAt.None? && (t.expiresAt.None? || Text.Less(now, t.expiresAt.value))
  }

  function FromStatic(tokens: seq<StaticToken>, sha: string): Option<Identity> {
    if tokens == [] then None
    else if tokens[0].sha == sha then
      Some(Identity(tokens[0].sub, tokens[0].teams, PinnedRole(tokens[0].role), None))
    else FromStatic(tokens[1..], sha)
  }

  /** Static tokens first, then stored tokens, then the identity provider. */
  function Authenticate(cfg: Config, db: Db, sha: string, oidc: Option<Claims>, now: string): Result<Identity, ApiError> {
    match FromStatic(cfg.staticTokens, sha)
    case Some(id) => Ok(id)
    case None =>
      if sha in db.tokens then
        var t := db.tokens[sha];
        if Live(t, now) then Ok(Identity(t.sub, t.teams, PinnedRole(t.role), Some(sha))) else Err(Unauthorized)
      else
        match oidc
        case Some(c) => Ok(Identity(c.sub, c.teams, None, None))
        case None => Err(Unauthorized)
  }
}

/** Role resolution and the access gate of the team-scoped endpoints. */
module Access {
  import opened Wrappers
  import opened Roles
  import opened State

  function EffectiveDefault(org: OrgSettings, fallback: Role): Role {
    PinnedRole(org.defaultRole).UnwrapOr(fallback)
  }

  /** An explicit row wins; else the pinned role or the default, for a team the identity carries. */
  function Resolve(cfg: Config, db: Db, team: string, id: Identity): Option<Role> {
    if Seat(team, id.sub) in db.roles then Some(db.roles[Seat(team, id.sub)])
    else if team in id.teams then Some(id.pinnedRole.UnwrapOr(EffectiveDefault(Org(db), cfg.defaultRole)))
    else None
  }

  /** Touching a team that has no owner row crowns the toucher, in bootstrap mode only. */
  predicate Bootstraps(db: Db, team: string, id: Identity) {
    Org(db).teamCreation == "bootstrap" && team in id.teams && Owners(db, team) == {}
  }

  datatype Gate = Gate(db: Db, role: Result<Role, ApiError>)

  function SetRow(db: Db, team: string, sub: string, role: Role): Db {
    db.(roles := db.roles[Seat(team, sub) := role])
  }

  function DropRow(db: Db, team: string, sub: string): Db {
    db.(roles := db.roles - {Seat(team, sub)})
  }

  function EnsureAccess(cfg: Config, db: Db, team: string, id: Identity, min: Role): Gate {
    match Resolve(cfg, db, team, id)
    case None => Gate(db, Err(Forbidden))
    case Some(role) =>
      if Bootstraps(db, team, id) then Gate(SetRow(db, team, id.sub, Owner), Ok(Owner))
      else if role.AtLeast(min) then Gate(db, Ok(role))
      else Gate(db, Err(Forbidden))
  }

  lemma OwnersAfterSet(db: Db, team: string, sub: string, role: Role, t: string)
    ensures Owners(SetRow(db, team, sub, role), t) ==
      if t != team then Owners(db, t) else if role == Owner then Owners(db, t) + {sub} else Owners(db, t) - {sub}
  {
    var after := SetRow(db, team, sub, role);
    forall s ensures s in Owners(after, t) <==> Seat(t, s) in after.roles && after.roles[Seat(t, s)] == Owner {
      OwnersByRow(after.roles, t, s);
    }
  }

  lemma OwnersAfterDrop(db: Db, team: string, sub: string, t: string)
    ensures Owners(DropRow(db, team, sub), t) == if t != team then Owners(db, t) else Owners(db, t) - {sub}
  {
    var after := DropRow(db, team, sub);
    forall s ensures s in Owners(after, t) <==> Seat(t, s) in after.roles && after.roles[Seat(t, s)] == Owner {
      OwnersByRow(after.roles, t, s);
    }
  }

  /**
   The gate either leaves the state alone, and then the role it reports is the resolved one, or
   it crowned the caller of a team nobody owned.
   */
  lemma GateEffect(cfg: Config, db: Db, team: string, id: Identity, min: Role)
    ensures var gate := EnsureAccess(cfg, db, team, id, min);
      && (gate.role.Ok? ==> gate.role.value.AtLeast(min))
      && (if Bootstraps(db, team, id) && Resolve(cfg, db, team, id).Some?
          then gate == Gate(SetRow(db, team, id.sub, Owner), Ok(Owner))
          else gate.db == db && (gate.role.Ok? ==> Resolve(cfg, db, team, id) == Some(gate.role.value)))
  {
  }
}
