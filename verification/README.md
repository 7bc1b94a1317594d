# Glyphio verification model

A Dafny model of the parts of Glyphio whose correctness depends on state, order or arithmetic,
with proofs about them.

**The team-sync server** (`Roles`, `Storage`, `Feed`, `Pushing`, `State`, `Auth`, `Access`, `Api`,
`Server`). The state is role rows, stored tokens, archived teams, org settings, restricted groups,
grants and one record log per team. Every HTTP handler is one step. `Server.AppState` holds the
state in fields and its methods follow the handlers statement by statement; each is proved equal to
a step function of `Api`, and `ServeAll` to the history function `Api.Run`. What those steps may do is
told a second time, from the tables and the credential alone, and proved to be what they do:

- `Standing`: who a caller is and which role it acts in,
- `Rules`: the capability matrix, request by request: who may, what changes, what the refusal is,
- `Sharing`: which records a pull shows, which batches a push takes, what becomes of each record.

The theorems about histories are lemmas over `Api.Run`; some are in `Rules` and `Sharing`, the others here:

- `Ownership`: who can ever change a team's owners,
- `Tokens`: stored tokens only lose power, codes are spent once,
- `Lockout`: what revoking and leaving cut off, and until when,
- `Authorship`: who a record belongs to, what can be in a log, who sees what,
- `Stamps`: what last write wins means for the stamps clients send.

**A device against that server** (`Devices`, `Acknowledging`, `Paging`, `Replica`, `PullLoop`,
`Missing`, `Contents`, `SyncLimits`, `PushLoop`): pulls page by page, pushes, edits, lost replies, other
devices' pushes and changes of what the user may see, in any order. `Replica` and `Contents` have the
promises, `Missing`, `SyncLimits` and `PushLoop` say exactly where they end.

**The desktop side**: `RateLimit`, `Redact`, `LogSink`, `History`, `FormBridge`, `Raster`, `Ipc`,
`Markdown`, `Keys`. Each has a reference definition of its own (the full history of checks, the
longest run within the caps, a block parser, the set of pixels under a region) that the code is
proved against.

Assumptions, stated once:

- A handler is one atomic step over the state, and storage calls succeed. `Storage` is the SQLite
  implementation: one counter and one row per record and team, newer `(updatedAt, version)` wins.
- A token's SHA-256 digest stands for the token; what an OIDC token says comes in as `Claims`.
  Digests of minted invites, times and request ids come in as parameters. A minted invite whose
  digest is already taken is refused.
- Times of the server are the fixed-width UTC strings of RFC 3339 section 5.6 for the years 0 to
  9999; section 5.1's claim that such strings sort by time is proved (`Timestamps.FormatOrder`), and so is
  that comparing characters is comparing the octets of RFC 3629 (`Text.LessIsByteOrder`).
- In `Replica`, what a user may see changes by an event of its own, to anything: a grant, a restriction
  or a role change on the server is one case; in front of given tables its sends and fetches are the
  push and pull requests (`Sharing.SendIsAPush`, `Sharing.FetchIsAPull`). One edit in the device's store is one atomic step, and a
  team's counter stays below 2^63 while a device pulls.

## Where the code and its descriptions differ

The model follows the code. These are results of the proofs:

- Nobody mints owners (server/src/admin.rs:554-555): true of invites that pin a role. An invite without
  one gives the default role, so with a default of Owner an outsider becomes an owner by redeeming
  (`Ownership.RedeemCrownsIff`, `Ownership.DefaultOwnerLetsOutsidersIn`).
- A team's founder is its owner (server/src/admin.rs:131-143), but founding does not ask whether somebody
  owns the team already. A team owned through bootstrapping is not in the registry, so any caller who may
  create teams becomes its second owner (`Ownership.FoundingCrownsIff`,
  `Ownership.OutsiderFoundsOwnedTeam`). Teams in the registry are safe
  (`Ownership.RegisteredOwnersMoveOnlyByOwners`).
- A refused push is said to be undone on the client like a lost race (server/src/routes.rs:160-162).
  `SyncLimits.PushedIsCleanIff` says exactly when a pushed snippet is settled on the device. A refused
  edit that is newer than the server's copy is not: it stays dirty through every later cycle, until it
  is edited again or the author or a manager pushes (`SyncLimits.RefusedEditSticks`,
  `SyncLimits.RefusedForGood`).
- With half a batch of refused or tied records at the front of its queue and more behind them, the push
  loop sends the same ones for ever (`PushLoop.PushLoopEndsIff`).
- A push whose acknowledgement was lost stays dirty too: repeated, it ties with itself
  (`SyncLimits.LostReplySticks`). One lost reply while more than half a batch of new snippets waits is
  enough for the endless loop (`PushLoop.LostReplyWedgesLoop`).
- One invalid record, or for a writer one of a group closed since, has its whole batch refused
  (`SyncLimits.InvalidRecordSpoilsBatch`, `SyncLimits.ClosedRecordSpoilsBatch`). While there is one in
  every batch, as when it stays among the first half-batch of the queue, no edit reaches the server
  (`SyncLimits.SpoiledBatchesSettleNothing`).
- `updatedAt` is called RFC 3339 and so chronological (src-tauri/crates/sync-proto/src/lib.rs:219-221).
  The server checks its length only: true of proper stamps (`Stamps.ProperStampsAreChronological`), but a
  snippet stamped `~` is never changed again by properly stamped pushes (`Stamps.BeyondTimeIsAccepted`,
  `Stamps.BeyondTimeIsForGood`).
- An edit made by a clock behind the server's copy is lost on the device that made it
  (`SyncLimits.SlowClockLosesEdit`).
- Pulls do not bring everything a user may see. Of the records the user leaves alone, the device is
  missing exactly those that were hidden when the cursor passed them and were not rewritten since
  (`Missing.PulledIffNotHidden`); a later grant does not bring them (`SyncLimits.AbsentInRun`,
  `SyncLimits.LateGrantMisses`).
- The last-write-wins rule is called deterministic on both sides
  (src-tauri/crates/sync-proto/src/lib.rs:219-222). The order of arrival does not matter if and only if
  the unbeaten arrivals of a key are one and the same record (`Storage.ArrivalOrderIsIrrelevantIff`, `Storage.EqualStampsDiverge`).
- docs/SYNC-PROTOCOL.md:106-107 says that the server sets `owner` to the pusher; the code keeps the
  author of an existing record (`Pushing.PushAndOneSnippet`).
- A cursor from 2^63 on starts the feed over and never moves (`Feed.HugeCursorStartsOver`).
- `revoke_access` and `leave_team` treat a token that lists one team twice, and no other, differently:
  one leaves it alive with no team, the other revokes it (`Lockout.RoutinesAgreeIff`). No history
  introduces such a list (`Lockout.RoutinesAgreeInRun`).
- A refused request may have made its caller the team's owner: exactly when the caller's credential
  lists the team, nobody owns it and the mode is bootstrap (`Api.RefusalCrownsIff`,
  `Api.ArchivedPullCrowns`).
- src-tauri/src/bridge.rs:123 says that a new form request drops an older one's sender. Ids are
  fresh, so the older one stays as it was (`FormBridge.AskingKeepsOlderRequests`).
- The sink's counter is exact only as long as no failed write left bytes in the open file
  (`LogSink.CounterIsLength`, `LogSink.BoundKept`). A double failure of the renames leaves the handle on
  the older file (`LogSink.GoesAstrayIff`), for good and without a limit (`LogSink.AstrayForGood`).
- Saving an old or an oversized capture can evict it on the spot (`History.StaysIff`).
- An empty line is taken for the end of an IPC stream (`Ipc.FramingRoundTripIff`, `Ipc.EmptyEventEndsIt`).
- A negative raw key code prints to a name that is not accepted (`Keys.RoundTripIff`).
- The rate limiter's 32-bit counter starts over after 2^32 checks in a minute
  (`RateLimit.WrappedCounterPasses`; a release build wraps).

## Model

| member | source | states |
|---|---|---|
| Ownership.OwnersChangeOnlyByOwners | server/src/admin.rs:180-242 | over every history with the default role below Owner and no stored token pinned at Owner: wherever a team has an owner, the next request changes its owner rows only if its caller is effectively Owner there or it founds the team |
| Ownership.OutsidersNeverMoveOwners | server/src/rbac.rs:64-101 | a history without such a request leaves the set of owners exactly as it was, the crowning inside the access check included |
| Ownership.FoundingCrownsIff | server/src/admin.rs:131-143 | creating a team moves a team's owners if and only if the name is that team's and proper, the policy allows it, the registry does not list it, and the caller has no owner row there; whether others own it is not asked |
| Ownership.OutsiderFoundsOwnedTeam | server/src/admin.rs:131-143 | so any authenticated stranger becomes a second owner of an owned team that is not in the registry |
| Ownership.BootstrappedIsNotRegistered | server/src/rbac.rs:74-95 | which a bootstrapped team is not: the access check makes its owner and leaves the registry alone |
| Ownership.RegisteredOwnersMoveOnlyByOwners | server/src/admin.rs:180-242 | for a team in the registry the exception is gone for good: over every such history its owner rows move only at an effective owner's request |
| Ownership.TokensBelowOwnerInRun | server/src/admin.rs:556-587 | no history stores a token pinned at Owner; the invariant the two above rest on |
| Ownership.RedeemCrownsIff | server/src/routes.rs:270-283 | redeeming changes a team's owners if and only if the invite is good, lists the open team, and the role it gives is Owner: the exact condition under which codes mint owners |
| Ownership.DefaultOwnerLetsOutsidersIn | server/src/rbac.rs:27-33 | with a default role of Owner, any outsider holding an unpinned live invite becomes an owner by redeeming it, without an owner's hand |
| Ownership.OnlyOwnersStrandTeams | server/src/admin.rs:189-242 | a request that takes a team's last owner row away is an owner's own set, remove or revoke of that very row, whatever roles are pinned or the default is |
| Ownership.SelfServiceKeepsAnOwner | server/src/routes.rs:312-360 | over every history of pulls, pushes, rosters, redemptions and departures, a team with an owner keeps one; owners by pin or default included |
| Ownership.LeaveWorksIff | server/src/routes.rs:317-336 | leaving succeeds if and only if the caller has a row or a claim and is not Owner of a team with fewer than two owner rows |
| Ownership.JoinedRow | server/src/routes.rs:274-283 | after joining, a row of the caller on an invite team is the larger of old and offered role; every other row is what it was |
| Roles.CeilingBelowCaller | server/src/admin.rs:180-184 | whatever a manager or better may pin on an invite is below the caller's own role and below Owner, and within what the caller may hand out directly |
| Roles.RoleRoundTrip | server/src/storage/mod.rs:254-273 | the stored name of a role reads back as that role |
| Access.GateEffect | server/src/rbac.rs:64-101 | the access check leaves the state alone and reports the resolved role, or has crowned the caller of an unowned team; a role it grants is at least the minimum |
| Standing.NamesInOrder | server/src/storage/mod.rs:254-273 | a role is read from its own name and from nothing else, and the five names stand in the order of the roles |
| Standing.StaticCredential | server/src/auth.rs:113-132 | the first static token with the caller's digest decides who it is and which role it pins, whatever is stored or claimed |
| Standing.StoredCredential | server/src/auth.rs:133-152 | a stored token speaks for its holder, with the role it names, exactly until it is revoked or the instant of its expiry has passed; times as calendar instants |
| Standing.ProvidedCredential | server/src/auth.rs:153-156 | any other credential is the identity provider's to vouch for, and pins no role |
| Standing.OneRole | server/src/rbac.rs:47-60 | everybody but a stranger has exactly one role on a team: its row, else what its credential pins, else the organisation's default, else the server's |
| Standing.GateDecides | server/src/rbac.rs:64-101 | the access check lets a caller through exactly in that role, if it ranks high enough, or as a fresh owner of an unclaimed team; a stranger never; told from rows, credential and settings alone |
| Rules.StrangersAreRefused | server/src/rbac.rs:70-72 | whoever has neither a row nor the team in its credential is refused every request on it, and nothing changes |
| Rules.ReadingIsForAll | server/src/routes.rs:80-82 | every role may pull and see the roster, unless the team is archived |
| Rules.ArchivingIsForOwners | server/src/admin.rs:149-159 | archiving works if and only if the caller is Owner; else it is Forbidden |
| Rules.RolesAreGivenFromAbove | server/src/admin.rs:180-221 | a role is given if and only if the caller is Owner, or manager or admin and ranks above both the row there is (or Reader) and the role to be; the row is then that role and nothing else moves |
| Rules.UnknownRolesAreInvalid | server/src/admin.rs:196-200 | a word that names no role is invalid to managers and above, Forbidden to others |
| Rules.RowsAreTakenFromAbove | server/src/admin.rs:225-243 | a row is removed, and access is revoked, if and only if the caller is Owner, or manager or admin and ranks above it |
| Rules.InvitesStayBelowTheMinter | server/src/admin.rs:556-611 | an invite is minted exactly by managers and above, for a name of 1 to 256 bytes, with no role or one strictly below the minter's own, and stored as asked for |
| Rules.RestrictingIsForLeaders | server/src/admin.rs:724-746 | exactly managers and above restrict and open groups, one at a time |
| Rules.GrantingIsForLeaders | server/src/admin.rs:775-799 | exactly managers and above give grants, of the levels read and write |
| Rules.UngrantingIsForLeaders | server/src/admin.rs:801-819 | exactly managers and above take grants away |
| Rules.InspectingIsForLeaders | server/src/admin.rs:161-166 | exactly managers and above see the administrative lists |
| Rules.FoundingFollowsThePolicy | server/src/admin.rs:88-143 | every answer to creating a team: who may under each policy, which names are proper, which team is founded, and that only its owner takes an archived one up again |
| Rules.SettingsAreForOwners | server/src/admin.rs:281-318 | the settings change if and only if the caller is Owner of some team and each of them is proper |
| Rules.LeavingIsForAllButTheLastOwner | server/src/routes.rs:312-336 | leaving is refused to strangers and to an owner beside whom no second owner row exists, and takes the caller's row and no other |
| Rules.CodesGiveWhatTheyOffer | server/src/routes.rs:245-304 | a code redeems exactly while it is stored, unrevoked, before its expiry and good for an open team; it then raises the caller's row there to the role it names, else the organisation's default, else the server's, and never lowers it |
| Rules.OthersRowsMoveFromAbove | server/src/admin.rs:180-243 | whatever the request: somebody else's row moves only by giving or taking that very row, and only if its caller is Owner there or ranks above both the old and the new row |
| Rules.RowsStayUnlessCommanded | server/src/admin.rs:180-243 | over every history without a request from above a row, and none of its holder's own, it stays as it is |
| Rules.ArchivingEndsIff | server/src/admin.rs:129-143 | an archived team opens again if and only if one of its owners, who may create teams, creates it anew |
| Rules.ArchivedServesNobody | server/src/routes.rs:43-49 | until then, over every history, it stays archived and answers no pull, no push and no roster |
| Rules.FlagsAndGrantsMoveByLeaders | server/src/admin.rs:724-819 | no request of anybody below manager on a team changes a restriction or a grant of it |
| Rules.ClosedStaysClosed | server/src/admin.rs:724-819 | nor does any history of such requests |
| Sharing.PullsShowIff | server/src/routes.rs:74-107 | exactly what one pull shows: a snippet of the stored page if its group is none, not restricted, granted to the caller at any level, or the caller is manager or above; groups likewise, flagged if and only if restricted; a page holds 200 records unasked and 1 to 1000 asked |
| Sharing.WalkShowsIff | server/src/routes.rs:80-107 | over every history, walking the pages from the start shows a caller a snippet if and only if it is stored and the caller may read it at that moment |
| Sharing.ClosedGroupsStayUnread | server/src/routes.rs:86-101 | after any history in which no manager or above of the team acts, a pull by somebody below manager without a grant shows no snippet of a restricted group |
| Sharing.PushesAreTakenIff | server/src/routes.rs:109-186 | exactly which batches are taken and what the others are refused with: not from readers, not for archived teams, 1 to 500 records each within the limits and nothing executable, and every group not restricted, granted for writing, or pushed by a manager or above |
| Sharing.SnippetsAreTakenIff | server/src/routes.rs:160-186 | in a batch without repeats, what becomes of each snippet and what its pusher is told: new ones are stored as the pusher's; known ones change if and only if newer and pushed by their author or a manager or above, and stay their author's |
| Sharing.GroupsAreTakenIff | server/src/storage/sqlite.rs:122-160 | a pushed group is taken if and only if it is new or newer, whoever pushes it, and without a flag |
| Sharing.AckCursorCounts | server/src/storage/sqlite.rs:122-160 | the cursor a push is answered with is the counter after it, which went up by one for each record the answer calls accepted |
| Sharing.OthersArePushes | server/src/routes.rs:109-186 | every push of somebody else's that the server takes is an event of the protocol |
| Sharing.SendIsAPush | src-tauri/crates/sync-client/src/engine.rs:213-275 | a device's send, in front of the server's tables, does to the records, and has answered, what the push request does, and goes through exactly if that is taken |
| Sharing.FetchIsAPull | src-tauri/crates/sync-client/src/engine.rs:195-211 | and its fetch brings what the pull request answers |
| Tokens.TokensOnlyWeakenInRun | server/src/auth.rs:135-151 | over every history a stored token stays stored, keeps its sub, role and expiry, its team list only loses entries in order, and revocation is for good |
| Tokens.RejectedStaysRejected | server/src/auth.rs:134-151 | a stored token that authentication rejects is rejected in every later state of every history at every later time; times enter as calendar instants and are compared as the server compares strings |
| Tokens.RedeemableIsLive | server/src/routes.rs:256-265 | what can be redeemed also authenticates; the two tests differ only at the very instant of expiry |
| Tokens.RedeemRaisesOwnRows | server/src/routes.rs:267-305 | a refused redemption changes nothing; an accepted one makes the caller's row on each open team of the invite the larger of old and offered role and touches no other row |
| Tokens.SpentUnlessOwnCredential | server/src/routes.rs:296-300 | after success the code is still good if and only if the caller was authenticated with that same invite |
| Tokens.SpentForGood | server/src/routes.rs:296-305 | a spent code is refused to everybody in every later state of every history, and the refusal changes nothing |
| Tokens.RevokedIsNeverRedeemed | server/src/storage/sqlite.rs:437-444 | no later state of any history lets anyone redeem a revoked token |
| Timestamps.FormatOrder | server/src/storage/mod.rs:248-251 | the strings compared for expiry and age are ordered exactly as the instants they stand for |
| Timestamps.FieldsReadBack | server/src/storage/mod.rs:248-251 | the string has the shape 0000-00-00T00:00:00.000Z and every field of the instant reads back from its place |
| Timestamps.YearsAreGregorian | server/src/storage/mod.rs:248-251 | the calendar those strings are in is the Gregorian one: the days before a year are 365 each and a leap day by the rule of 4, 100 and 400 |
| Timestamps.EveryMillisIsAnInstant | server/src/storage/mod.rs:248-251 | and has no gap: each millisecond of the years 0 to 9999 is exactly one valid instant later than the one before |
| Text.LessIsByteOrder | src-tauri/crates/sync-proto/src/lib.rs:219-225 | comparing strings character by character is comparing the octets of their UTF-8 encodings, as Rust does |
| Text.Utf8LenIsBytes | server/src/routes.rs:429-436 | the length the limits are about is the number of those octets |
| Lockout.RevokeAccessLocksOut | server/src/admin.rs:630-680 | after a revoke request that succeeds no live token of the sub lists the team and no row remains; beyond the caller's own crowning, other rows, other subs' tokens and other entries, in order, are as before |
| Lockout.LeavingLocksOut | server/src/routes.rs:336-355 | the same for a successful departure |
| Lockout.LockedOutHasNoRole | server/src/rbac.rs:47-59 | locked out means: through any stored token the sub has no role on the team, every gated request on it is refused, and the refusal changes nothing |
| Lockout.LockedOutInRun | server/src/admin.rs:645-663 | over every history without a request that lets the sub in, the sub stays locked out |
| Lockout.LetsInIsExact | server/src/admin.rs:564-618 | the list of requests that let somebody in is exact, whatever the request: it is on the list if and only if it ends the lockout |
| Lockout.SameLiveTeams | server/src/admin.rs:645-662 | revoking and leaving keep a token open to the same teams, those it had minus this one |
| Lockout.RoutinesAgreeIff | server/src/routes.rs:339-352 | on one token the two routines give the same result if and only if it is not a live token listing this team alone and more than once |
| Lockout.RoutinesAgreeInRun | server/src/admin.rs:600-662 | in every state any history reaches from tokens without repeated teams, the two routines do the same to every token, for every sub and team |
| Lockout.NoRequestIntroducesRepeats | server/src/admin.rs:600-612 | because no request stores or produces a team list with repeats |
| Lockout.StoredIdentity | server/src/auth.rs:134-151 | an identity that carries a token digest came from that stored, unrevoked token, with its sub and teams |
| Authorship.AuthorIsFirstPusher | server/src/routes.rs:151-184 | over every history the owner of a snippet is the sub whose push first stored its id |
| Authorship.AuthorIsForever | server/src/routes.rs:151-184 | once stored a snippet stays stored under the same owner in every history |
| Authorship.SnippetStep | server/src/routes.rs:160-184 | one request changes a snippet only if it is a push by its owner or a manager, and only to a strictly newer body taken from the batch |
| Authorship.NothingForbiddenIsStored | server/src/routes.rs:372-427 | no history of a server that started clean stores a command snippet, a shell or script variable, a snippet or group of another team, or a group with the flag set |
| Authorship.PullsShowExactlyTheVisible | server/src/routes.rs:80-107 | in every reachable state, walking the pages from cursor 0 with any limit gives exactly the visible records once each in order, and each group the flag of its membership in the restricted set |
| Authorship.HiddenRecordsNeverAnswer | server/src/routes.rs:80-107 | two servers that differ only in records the caller may not see answer every pull alike |
| Stamps.ProperStampsAreChronological | src-tauri/crates/sync-proto/src/lib.rs:219-225 | between records with RFC 3339 stamps of one width the winner is the one written later, and of two written at one instant the higher version |
| Stamps.BeyondTimeIsAccepted | server/src/routes.rs:429-436 | validation takes a stamp that sorts behind every such stamp as it takes any other |
| Stamps.BeyondTimeIsForGood | server/src/routes.rs:372-427 | a snippet stored with one is neither changed nor deleted by any history of properly stamped pushes, whoever makes them |
| Pushing.EveryIdAcknowledgedOnce | server/src/routes.rs:164-186 | every pushed id comes back once per occurrence: editable ones first, refused ones after, each in batch order; groups in batch order |
| Pushing.PushAndOneSnippet | server/src/routes.rs:160-184 | what one push does to one id: owner kept, content changed only with the right to, a new record owned by its pusher |
| Pushing.PushKeepsVetted | server/src/routes.rs:146-149 | after a valid batch the log holds only validated records of the team, and no group that carries a client's flag |
| Pushing.SplitLosesNothing | server/src/routes.rs:164-182 | kept and refused ids together are the batch's ids, as multisets |
| Feed.WalkShowsEverything | server/src/storage/sqlite.rs:165-190 | from any cursor below 2^63, for any page size, the walk returns exactly the visible rows behind it, once each in order, and ends where nothing is left |
| Feed.HugeCursorStartsOver | server/src/storage/sqlite.rs:165-190 | from 2^63 on the page starts over with the whole log and the cursor stays put |
| Feed.LimitIsJoint | server/src/storage/sqlite.rs:165-190 | a stored page has at most the limit's number of records of both kinds together, and exactly that many when more are left |
| Feed.FullWalk | server/src/routes.rs:80-107 | from cursor 0 the walk covers the whole log |
| Feed.PageIsPrefix | server/src/storage/sqlite.rs:165-190 | one page is what the caller may see of the next rows, says whether rows are left, and its cursor leaves exactly those |
| Feed.FlagIsMembership | server/src/routes.rs:87-104 | each outgoing group's flag says whether the group is in the restricted set, also when that set is empty |
| Feed.HiddenRecordsDoNotShow | server/src/routes.rs:87-104 | a page does not depend on what hidden records hold |
| Storage.StoreHoldsWinner | server/src/storage/sqlite.rs:122-160 | after any history of arrivals the row of a key is the winner of all of them: it beats all earlier ones and no later one beats it |
| Storage.ArrivalOrderIsIrrelevantIff | src-tauri/crates/sync-proto/src/lib.rs:216-225 | the order of arrival does not matter for a key if and only if its unbeaten arrivals are one and the same record: then and only then all stores that got the same records, in any orders and numbers, hold the same |
| Storage.DifferentStampsMeanOneTop | src-tauri/crates/sync-proto/src/lib.rs:216-225 | which is so where equal stamps of that key mean equal records |
| Storage.EqualStampsDiverge | src-tauri/crates/sync-proto/src/lib.rs:216-225 | the smallest case where it matters: two orders of two records with one stamp give different stores |
| Storage.GetAfterMergeOne | server/src/storage/sqlite.rs:122-160 | one merge leaves each key its old record or, for the merged key, the strictly newer one; the outcome says which, and a superseded one carries the held record |
| Storage.MergeAllKeepsValid | server/src/storage/sqlite.rs:111-160 | sequence numbers stay positive, distinct and ordered, with one row per key, over any batch |
| Api.BodyFrame | server/src/admin.rs:189-680 | behind the access check only administrative requests touch rows, only inviting and revoking touch tokens, only a push touches records |
| Tokens.RedeemingTwiceIsRedeemingOnce | server/src/routes.rs:267-305 | redeeming the same code again at the same time changes nothing more, and succeeds if and only if the first did and the caller's own credential is that code |
| Api.RefusalCrownsIff | server/src/rbac.rs:78-99 | a refused request changes the state if and only if it is a gated request of a known caller on a team the caller's credential lists and nobody owns, in bootstrap mode; the change is the caller's owner row |
| Api.ArchivedPullCrowns | server/src/routes.rs:44-57 | such a refusal: pulling an archived team nobody owns answers with the refusal and leaves the caller its owner |
| Server.AppState.EnsureAccess | server/src/rbac.rs:64-101 | the handler-level check refines the gate: role lookup layer by layer, the owner scan, the crowning |
| Server.AppState.Pull | server/src/routes.rs:71-107 | the read loops and in-place filtering produce the specified page |
| Server.AppState.Push | server/src/routes.rs:110-197 | validation, the ownership loop, the merge loop and the acknowledgement produce the specified step |
| Server.AppState.ReadPage | server/src/storage/sqlite.rs:165-190 | the row loop builds the specified page and cursor |
| Server.AppState.FilterPage | server/src/routes.rs:80-107 | dropping what the caller may not see and setting the flags, in place, is the specified serving |
| Server.AppState.Members | server/src/routes.rs:201-215 | the roster request's gate and archive check, and that it changes nothing behind them |
| Server.AppState.JoinTeams | server/src/routes.rs:273-295 | the loop raises the caller's row on each open team of the invite and no other; it reports none joined if and only if none is open |
| Server.AppState.LeaveTokens | server/src/routes.rs:339-352 | the loop over the caller's tokens rewrites or revokes each as specified |
| Server.AppState.CutOffTokens | server/src/admin.rs:645-662 | the loop over the sub's tokens rewrites or revokes each as specified |
| Server.AppState.BestRole | server/src/admin.rs:247-263 | the result reaches a role above Reader if and only if the caller holds that much on some team by row, pin, claim or default |
| Server.AppState.SplitBatch | server/src/routes.rs:163-182 | the loop over the batch keeps and stamps, or refuses with the server's copy, exactly as specified |
| Server.AppState.MergeRecord | server/src/storage/sqlite.rs:122-160 | the upsert of one record and its outcome |
| Server.AppState.CrownFirst | server/src/rbac.rs:78-95 | the owner row is written if and only if the mode is bootstrap, the credential lists the team and nobody owns it |
| Server.AppState.Merge | server/src/storage/sqlite.rs:192-210 | the merge loop computes the fold of single merges |
| Server.AppState.RedeemInvite | server/src/routes.rs:245-305 | the joining loop and the spending of the code produce the specified step |
| Server.AppState.LeaveTeam | server/src/routes.rs:312-360 | the guard, the token loop and the removal of the row produce the specified step |
| Server.AppState.RevokeAccess | server/src/admin.rs:630-680 | the token loop and the removal of the row produce the specified step |
| Server.AppState.CreateTeam | server/src/admin.rs:92-145 | founding: who may, reserved and taken names, the founder's owner row |
| Server.AppState.ArchiveTeam | server/src/admin.rs:149-159 | archiving by an owner |
| Server.AppState.SetRole | server/src/admin.rs:189-221 | the administration matrix over the target's current and new role |
| Server.AppState.RemoveRole | server/src/admin.rs:223-242 | the same for taking a row away |
| Server.AppState.PutOrg | server/src/admin.rs:281-318 | org settings: who may, what is valid, what is stored |
| Server.AppState.CreateInvite | server/src/admin.rs:564-627 | an invite's checks in order and the token it stores |
| Server.AppState.SetRestricted | server/src/admin.rs:724-750 | restricting and opening a group |
| Server.AppState.SetGrant | server/src/admin.rs:775-798 | granting a sub access to a group |
| Server.AppState.RemoveGrant | server/src/admin.rs:801-821 | taking a grant back |
| Server.AppState.ServeAll | server/src/routes.rs:21-360 | serving a list of requests is the history function the theorems quantify over |
| Replica.Reachable | src-tauri/crates/sync-client/src/engine.rs:195-280 | the invariant of a device and its server holds in every interleaving of pulls, pushes, edits, lost cycles, other devices' pushes and changes of what the user may see |
| Replica.AcknowledgedIsNeverLost | src-tauri/crates/snippet-store/src/lib.rs:638-653 | in every such history a record the device holds for clean is on the server, or a strictly newer one, or one with its stamp |
| Replica.PullsMissNothing | src-tauri/crates/sync-client/src/engine.rs:195-211 | in every such history, between pulls, a row behind the cursor is on the device, with the server's stamp unless an edit waits to be sent; the exception is a row that was hidden when the cursor passed it and has not been rewritten since |
| Replica.UnseenWasHidden | server/src/routes.rs:80-107 | each such exception was in the log and hidden from the user at a fetch whose page went past it |
| Missing.PulledIffNotHidden | src-tauri/crates/sync-client/src/engine.rs:195-211 | in every such history in which the user leaves a record alone and begun pages are finished, between pulls: a row behind the cursor is on the device, with its stamp, if and only if it was not hidden when the cursor passed it |
| Missing.TrackedInRun | src-tauri/crates/sync-client/src/engine.rs:195-211 | because along such a history a row that was left out, or that no page has covered yet, is never on the device |
| Replica.VisibleIsPulled | src-tauri/crates/sync-client/src/engine.rs:195-211 | so a row that no fetch whose page went past it hid from the user is on the device |
| Replica.DevicesConverge | src-tauri/crates/sync-client/src/engine.rs:169-193 | two devices that are up to date with one server agree on the stamp of every record whose present row neither cursor passed while it was hidden, whatever the users were granted or denied meanwhile |
| Contents.ContentsConverge | src-tauri/crates/sync-client/src/engine.rs:169-193 | where one stamp of a record means one body, the two devices and the server hold the same body, its group included unless that group is ever deleted; the author, which the server fills in, is left out |
| Contents.RunAgrees | src-tauri/crates/sync-client/src/engine.rs:195-280 | because along every such history every stored, held, fetched and answered record says what its stamp means |
| Paging.LastPageReachesEnd | src-tauri/crates/sync-client/src/engine.rs:195-211 | a page that is not cut leads the cursor past every row of the log |
| Paging.PageIsComplete | server/src/routes.rs:80-107 | a page holds every visible row between the old cursor and the new one |
| PullLoop.PullTeam | src-tauri/crates/sync-client/src/engine.rs:195-211 | with other devices pushing, rights changing and the user editing between any two of finitely many pages, the pull loop ends once the others pause; it is a run of the protocol's steps, leaves the cursor past every row of the server's log and makes nothing dirty but what the user edits meanwhile |
| PullLoop.PullPage | src-tauri/crates/sync-client/src/engine.rs:196-209 | one turn of it: the page applied, the cursor moved, fewer rows left |
| PullLoop.ApplyPage | src-tauri/crates/sync-client/src/engine.rs:199-205 | the loop over a page applies its records in turn, groups first |
| SyncLimits.PushedIsCleanIff | server/src/routes.rs:160-184 | a pushed snippet is clean on the device afterwards if and only if the server had none of that id, or holds a strictly newer one (which replaces it), or the pusher may edit it and it is strictly newer; else nothing changes and it stays dirty |
| SyncLimits.PushedGroupIsCleanIff | server/src/storage/sqlite.rs:122-160 | a pushed group stays dirty if and only if the server's has the very same stamp |
| SyncLimits.RefusedEditSticks | server/src/routes.rs:160-184 | a run of it, with any page size: pull somebody else's snippet, edit it with a later clock, push it as a writer, hear the answer; the server keeps its record, the device its edit, still dirty |
| SyncLimits.StuckStays | src-tauri/crates/sync-client/src/engine.rs:213-280 | one step of any kind leaves a stuck row stuck, unless its user edits it again or its row on the server changes |
| SyncLimits.StuckInRun | src-tauri/crates/sync-client/src/engine.rs:213-280 | over every continuation without those two, however many cycles it holds, the row stays dirty with its stamp |
| SyncLimits.RefusedForGood | server/src/routes.rs:160-184 | a refused edit stays stuck, and the server's row as it was, over every history in which its user leaves it and neither its author nor a manager pushes, however often this device pushes it |
| PushLoop.PushLoopEndsIff | src-tauri/crates/sync-client/src/engine.rs:213-280 | while nobody else writes, the loop around several batches ends if and only if, of the dirty snippets but the last in the query's order, fewer than half a batch are refused or tied, and of the dirty groups likewise |
| PushLoop.ManyHopelessNeverEnd | src-tauri/crates/sync-client/src/engine.rs:213-280 | so with more than half a batch of such snippets it sends the same ones for ever |
| PushLoop.LostReplyWedgesLoop | src-tauri/crates/sync-client/src/engine.rs:213-280 | a run into that: a new device creates more than half a batch of valid snippets, sends the first half and loses the reply; the loop never ends, however many turns it takes |
| PushLoop.TurnSettles | src-tauri/crates/sync-client/src/engine.rs:213-275 | one turn settles what it sends unless that is refused or tied, and leaves every other row as it was, but for the group a snippet is in |
| SyncLimits.SpoiledBatchesSettleNothing | server/src/routes.rs:119-149 | over every history in which each batch has a record for which the server refuses it whole, nothing is settled by pushing: each dirty record that others leave alone stays dirty as it is and the server learns nothing of it |
| SyncLimits.InvalidRecordSpoilsBatch | server/src/routes.rs:372-427 | an invalid record is such a record, for a user of any role |
| SyncLimits.ClosedRecordSpoilsBatch | server/src/routes.rs:121-145 | and for a writer so is a snippet in a group that has been closed to the user, or that group |
| SyncLimits.LostReplySticks | src-tauri/crates/sync-client/src/engine.rs:213-280 | creating any valid snippet, pushing it and losing the reply is enough to get there |
| SyncLimits.SlowClockLosesEdit | src-tauri/crates/snippet-store/src/lib.rs:430-468 | an edit stamped before the server's copy, pushed in any batch by anyone, comes back as that copy on the device that made it |
| SyncLimits.AbsentInRun | server/src/routes.rs:80-107 | a record the cursor has passed and the device does not have stays away over every continuation, grants included, that neither rewrites it on the server nor edits it here |
| SyncLimits.LateGrantMisses | server/src/routes.rs:80-107 | a run of it, with any page size: pull while a snippet is hidden, be granted it, pull again; the device is up to date, its user may see the snippet, and it is not there |
| Acknowledging.MergeTells | server/src/storage/sqlite.rs:122-160 | every outcome of a batch is still true when the batch is through: accepted means stored or overtaken, superseded shows the row there was |
| Acknowledging.AckForSnippet | server/src/routes.rs:160-186 | in a batch without repeats each snippet's outcome is the one it would get alone: refused with the server's copy, or the merge's |
| Devices.SnippetStore.ApplyRemote | src-tauri/crates/snippet-store/src/lib.rs:673-767 | the guarded write, the release of a deleted group's snippets and the acknowledgement |
| Devices.SnippetStore.TakeOutcome | src-tauri/crates/sync-client/src/engine.rs:238-276 | one outcome of a push, accepted or superseded, does on the store what the protocol's step says |
| Devices.SnippetStore.Edit | src-tauri/crates/snippet-store/src/lib.rs:430-468 | a user's edit stores the record one version up and leaves it to be sent; a group's deletion also releases its snippets |
| Devices.SnippetStore.SetCursor | src-tauri/crates/snippet-store/src/lib.rs:663-671 | the cursor alone moves |
| Devices.AppliedIsExact | src-tauri/crates/snippet-store/src/lib.rs:673-775 | what is applied is stored exactly as it came if it is new or newer; of all other rows only the members of a deleted group change, and only by losing it |
| Devices.EditedIsExact | src-tauri/crates/snippet-store/src/lib.rs:430-468 | a user's edit takes the next version, or the first, marks nothing as sent, and otherwise touches only the members of a group it deletes |
| Devices.ArrivalIsDisarmed | src-tauri/crates/sync-client/src/engine.rs:313-340 | a snippet off the wire has lost what could be run, and nothing else: a command becomes text, variables go if one of them is a shell or script |
| Devices.NothingForeignRuns | src-tauri/crates/sync-client/src/engine.rs:313-340 | whatever a server sends and in whatever order, a device on which nothing can be run stays such a device |
| Devices.NothingReceivedIsNewer | src-tauri/crates/snippet-store/src/lib.rs:673-775 | once a sequence of records has been applied, none of them is newer than what the device holds of it |
| Devices.NothingSentRuns | src-tauri/crates/sync-client/src/engine.rs:285-293 | what the device pushes is what it has, and none of it can be run |
| RateLimit.RateLimiter.Check | server/src/ratelimit.rs:21-38 | the answer depends on the history of checks alone: neither the windows nor their clean-up show |
| RateLimit.PassesIffFewEarlier | server/src/ratelimit.rs:21-38 | below 2^32 checks a minute, a check passes if and only if fewer than the limit of its key came before it in that minute |
| RateLimit.WrappedCounterPasses | server/src/ratelimit.rs:31-33 | the check that wraps the counter passes |
| RateLimit.CounterWraps | server/src/ratelimit.rs:31-32 | the counter is the count modulo 2^32 |
| RateLimit.AtMostTwicePerMinute | server/src/ratelimit.rs:21-38 | at most twice the limit passes in any 60 seconds, however they lie |
| RateLimit.TwiceIsReached | server/src/ratelimit.rs:21-38 | and that bound is reached, for any limit, by two bursts around a full minute |
| RateLimit.RetryLandsOnNextMinute | server/src/ratelimit.rs:33-36 | the advised wait is 1 to 60 seconds and ends where the next minute starts |
| Redact.RedactLine | src-tauri/src/logging.rs:50-72 | the loop computes the redaction |
| Redact.RedactIdempotent | src-tauri/src/logging.rs:50-72 | redacting twice is redacting once |
| Redact.TailDoesNotShow | src-tauri/src/logging.rs:50-72 | behind any text, a separator and a host, one tail may be replaced by another without a trace in the result |
| Redact.FirstUrl | src-tauri/src/logging.rs:58-71 | the first URL keeps scheme and host and loses its tail, and the rest is redacted by itself |
| Redact.NoSchemeUnchanged | src-tauri/src/logging.rs:51-53 | a line without a separator comes out unchanged |
| LogSink.Sink.WriteLine | src-tauri/src/logging.rs:128-135 | one call's effect on both files, the handle and the counter, for every outcome of the system calls |
| LogSink.Sink.Rotate | src-tauri/src/logging.rs:139-153 | the renames and the reopening, for every outcome of each |
| LogSink.KeepsTheEnd | src-tauri/src/logging.rs:121-153 | whatever fails, previous and live file together hold an unbroken end of all that was there and all that was written |
| LogSink.WholeLineStandsLast | src-tauri/src/logging.rs:128-135 | a line that was written whole stands at the end of the open file, closed by a line feed, whatever the rotation did |
| LogSink.PartStandsLast | src-tauri/src/logging.rs:128-135 | of a line that was written in part, exactly its first bytes stand there |
| LogSink.CounterIsLength | src-tauri/src/logging.rs:121-153 | the counter is the open file's length less what failed writes left in it |
| LogSink.GoesAstrayIff | src-tauri/src/logging.rs:139-153 | over every sequence of calls the handle ends on the older file if and only if some call needed a rotation that renamed, could not reopen and could not rename back |
| LogSink.AstrayForGood | src-tauri/src/logging.rs:139-153 | from then on there is no live file again and the older one takes every byte, past any limit |
| LogSink.BoundKept | src-tauri/src/logging.rs:128-153 | a line that fits keeps the live file within the limit if and only if no rotation was needed or it succeeded |
| LogSink.LiveStaysBounded | src-tauri/src/logging.rs:121-153 | with rotations and writes succeeding the live file never exceeds the limit |
| History.HistoryStore.EnforceRetention | src-tauri/src/history.rs:328-347 | the loop deletes oldest first until both caps are met, keeping rows and files in step |
| History.HistoryStore.Delete | src-tauri/src/history.rs:299-307 | one row and its two files go |
| History.HistoryStore.Save | src-tauri/src/history.rs:161-229 | the whole new state: images written, the row put in its place by time, and the oldest evicted until the caps are met |
| History.HistoryStore.Update | src-tauri/src/history.rs:233-277 | an edit's whole effect, or its error and no effect |
| History.HistoryStore.Clear | src-tauri/src/history.rs:309-323 | no row and no file is left |
| History.RetainedIsLongest | src-tauri/src/history.rs:328-347 | what the caps keep fits them, and no longer run of newest captures does |
| History.StaysIff | src-tauri/src/history.rs:328-347 | a capture survives if and only if it and everything newer fit the caps |
| History.TotalIsTrue | src-tauri/src/history.rs:331-345 | the unsigned comparison sees the true total: no underflow |
| History.DeleteKeepsConsistent | src-tauri/src/history.rs:299-307 | files on disk stay exactly those of the rows, with the sizes the rows say |
| History.WriteKeepsConsistent | src-tauri/src/history.rs:161-229 | the same for a new capture |
| History.AlwaysConsistent | src-tauri/src/history.rs:161-347 | over every sequence of saves, updates, deletions and clearings, the files on disk are exactly those of the rows and each row states the size of its two |
| History.EvictedFiles | src-tauri/src/history.rs:328-347 | a file that survives the caps holds what it held |
| History.EditKeepsConsistent | src-tauri/src/history.rs:233-277 | the same for an edit, with the size restated when a file is rewritten |
| History.TotalIsDiskUse | src-tauri/src/history.rs:328-347 | the sizes the rows state add up to the bytes of all image files on disk |
| History.SavingCapsTheDisk | src-tauri/src/history.rs:161-229 | whatever went before, right after a save both caps hold, for the rows and for the bytes on disk |
| History.NewestIsKept | src-tauri/src/history.rs:161-229 | a capture no older than all others is kept by its own save, images and all, if there is room for it alone |
| History.EditIsExact | src-tauri/src/history.rs:233-277 | an edit changes exactly one capture, the fields of its patch and its files, and none whose banner is baked in |
| History.EditedFilesExact | src-tauri/src/history.rs:233-277 | of its files the image is replaced by a new one, the thumbnail only along with it, and no other capture's |
| FormBridge.BridgeState.Resolve | src-tauri/src/bridge.rs:41-48 | the sender is taken out once; the reply arrives if somebody still waits |
| FormBridge.OneCommandPerFailure | ui/form/form.js:109-134 | however its buttons are pressed, a page sends at most one command, and one more for each that could not be delivered; without failures its flag says exactly whether one has left |
| FormBridge.FirstReplyStays | src-tauri/src/bridge.rs:41-48 | a reply that has arrived stays the one there is, whatever commands follow |
| FormBridge.FirstReplyArrives | src-tauri/src/bridge.rs:41-48 | the reply a request gets is that of the first command for it, whatever is asked and resolved before, between and after |
| FormBridge.Use | ui/form/form.js:109-134 | pressing a page's buttons in any order, failures in between, leads to the page state and the number of commands of the specification |
| FormBridge.Serve | src-tauri/src/bridge.rs:118-125 | requests and commands in any order leave the bridge as specified |
| FormBridge.AskingKeepsOlderRequests | src-tauri/src/bridge.rs:118-125 | a new request leaves an older one's sender in place and the older one waiting, whatever the comment above the insertion says |
| FormBridge.Reachable | src-tauri/src/bridge.rs:118-148 | the protocol's invariant holds in every interleaving of requests, pages, commands and timeouts |
| FormBridge.AnswersAreFinal | src-tauri/src/bridge.rs:134-148 | a request is answered at most once |
| FormBridge.AnswerIsAlwaysNear | src-tauri/src/bridge.rs:134-148 | a request without an answer waits, and one step of its own answers it |
| FormBridge.OnlyOwnPageFills | src-tauri/src/commands.rs:752-776 | an answer with text has a text that was submitted for that very request |
| FormBridge.SaidByOwnPage | ui/form/form.js:109-119 | and what was submitted for a request came from a page that had loaded it and sent nothing yet |
| FormBridge.ResolvedInTimeIsDelivered | src-tauri/src/commands.rs:752-767 | a submission that resolves while its request waits is delivered |
| FormBridge.FormIsFilled | src-tauri/src/commands.rs:752-767 | from every reachable state, a form that is asked for, opened, filled in and sent answers with its text |
| FormBridge.FormIsFilledAgain | ui/form/form.js:109-134 | a submission that could not be delivered may be sent again, and then answers with the second text |
| FormBridge.FormIsCancelled | src-tauri/src/commands.rs:769-776 | a form that is closed instead is answered as cancelled by that, not by the time running out |
| FormBridge.LateSubmitReachesNobody | src-tauri/src/bridge.rs:41-48 | a submission that resolves after the time has run out takes its sender with it and reaches nobody |
| FormBridge.SweptIsClosed | src-tauri/src/bridge.rs:134-148 | once a request is answered and swept, later commands for it reach nobody |
| FormBridge.SubmitIsNeverTurnedIntoCancel | src-tauri/src/commands.rs:752-776 | and stays so in every continuation: the answer is that text, whatever windows close |
| Raster.RectSpansPoints | ui/editor/editor.js:770-777 | the dragged rectangle spans its two points whichever came first |
| Raster.ContentRectIsIntersection | ui/editor/editor.js:803-810 | the content rectangle covers exactly the content pixels the shifted selection lies over; none means there are none |
| Raster.ContentRectNotEmpty | ui/editor/editor.js:803-810 | and is never empty nor outside the content |
| Raster.CropWorksIff | ui/editor/editor.js:826-846 | a crop works if and only if the selection is at least 4 by 4 and at least 4 by 4 of it lie over content; it leaves exactly those pixels, and otherwise nothing changes |
| Raster.BlackIffCovered | ui/editor/editor.js:958-977 | after redaction a pixel is black if and only if it was or lay under a region, and all others are as before |
| Raster.CropOfCrop | ui/editor/editor.js:826-846 | two crops are one crop at the summed offset |
| Raster.RedactCommutesWithCrop | ui/editor/editor.js:826-977 | redacting then cropping is cropping then redacting moved regions |
| Raster.ContentCanvas.ApplyRedact | ui/editor/editor.js:958-977 | the loop over regions paints the canvas as specified |
| Raster.ContentCanvas.ApplyCrop | ui/editor/editor.js:826-846 | the canvas becomes the cut-out |
| Ipc.ReadLine | espanso/espanso-ipc/src/util.rs:24-46 | the byte loop returns the first line and what is behind it, or nothing at end of stream |
| Ipc.FramingRoundTripIff | espanso/espanso-ipc/src/util.rs:24-46 | newline-free messages come back exactly if and only if none of them is empty |
| Ipc.ReadAllOfFramed | espanso/espanso-ipc/src/util.rs:24-46 | what comes back is the messages before the first empty one |
| Ipc.Reachable | espanso/espanso-ipc/src/unix.rs:57-101 | the conversation's invariant holds in every interleaving of client and server |
| Ipc.SyncGetsItsOwnAnswer | espanso/espanso-ipc/src/unix.rs:117-145 | if exactly the synchronous events are answered, by a handler that may keep a state, the n-th synchronous send gets the answer to its own event, or comes back empty once the server has exited |
| Ipc.WaitingClientProgresses | espanso/espanso-ipc/src/unix.rs:117-135 | a waiting client is never stuck |
| Ipc.AnsweredAsyncMisaligns | espanso/espanso-ipc/src/unix.rs:117-145 | an answer to an asynchronous event is taken for the next synchronous one's |
| Ipc.EmptyEventEndsIt | espanso/espanso-ipc/src/unix.rs:57-101 | an empty event ends the conversation: the server takes it for the end of the stream, and the next synchronous send comes back empty |
| Markdown.MdToHtml | ui/shared/markdown.js:14-37 | the flag loop emits the token stream of the specification |
| Markdown.EmitLine | ui/shared/markdown.js:24-33 | one turn of the loop over its three flags |
| Markdown.CloseOpenLists | ui/shared/markdown.js:22-22 | at most one list is open, and it is closed |
| Markdown.EmitterPrintsBlocks | ui/shared/markdown.js:24-37 | the flag machine prints exactly the blocks an independent parser finds |
| Markdown.EmittedIsNested | ui/shared/markdown.js:24-37 | for every text the tags are balanced, items sit directly in one list, and no list is open in a fence |
| Markdown.HeadingIff | ui/shared/markdown.js:26-27 | a line outside a fence is a heading of level n exactly if it is n hashes, 1 to 6, then spaces, then the text |
| Markdown.BulletIff | ui/shared/markdown.js:28-29 | a bullet exactly if it is spaces or none, a hyphen or an asterisk, spaces, the text |
| Markdown.NumberedIff | ui/shared/markdown.js:30-31 | a numbered item exactly if it is spaces or none, digits, a full stop, spaces, the text |
| Markdown.FenceIff | ui/shared/markdown.js:24-24 | a fence exactly if it starts with three backquotes |
| Markdown.BlankIff | ui/shared/markdown.js:32-32 | blank exactly if it is spaces only |
| Markdown.EscapeRoundTrip | ui/shared/markdown.js:4-6 | escaping has an inverse |
| Markdown.EscapeInjective | ui/shared/markdown.js:4-6 | no two texts escape alike |
| Markdown.EscapedIsHarmless | ui/shared/markdown.js:4-6 | no bracket or double quote is left |
| Keys.RoundTripIff | espanso/espanso-inject/src/keys.rs:138-340 | a key comes back from its printed name if and only if it is not a negative raw code, and never as another key |
| Keys.AcceptedKeysRoundTrip | espanso/espanso-inject/src/keys.rs:233-340 | whatever spelling is accepted, its key prints to a name that gives it back |
| Keys.SpellingIsPrintedIff | espanso/espanso-inject/src/keys.rs:233-340 | an accepted spelling is the printed one if and only if it is neither alias nor a raw code with digits to spare |
| Keys.RawParses | espanso/espanso-inject/src/keys.rs:325-337 | what stands in the brackets is read as a number if it is digits within 31 bits, and refused otherwise |
| Keys.LeadingZerosAreDropped | espanso/espanso-inject/src/keys.rs:325-337 | leading zeros do not change the code |
| Keys.PrintInjective | espanso/espanso-inject/src/keys.rs:138-231 | no two keys print alike, negative raw codes included |

## Left out

- The DynamoDB store, storage failures, and two requests' storage calls interleaving.
- OIDC, JWKS and JWT validation, SHA-256 and random token generation: library work.
- HTTP, JSON, problem bodies and message texts; the audit log, statistics and console settings, none of which changes an answer.
- Server.AppState.Members: the access check only; the merging of the roster, seen-members rows and `/v1/me` are not modelled.
- Trimming of names and codes, and turning `expires_days` into a time: both arrive ready.
- Server.AppState.CreateInvite: the expiry arrives as a string, because the day arithmetic is the clock library's.
- Users, teams and cursors beyond the sizes of the wire types, except the page cursor (64 bits) and the rate counter (32 bits).
- Replica.Step: a record moving between teams or to a personal snippet, the `enabled` flag, batch size and order of a push; the batch is any set of dirty rows. `PushLoop` adds size, order and the loop, for records the server validates, while nobody else writes.
- Devices.SnippetStore.ApplyRemote: change notifications and the return of database errors.
- `truncate` and file permissions in the log; a first open that fails.
- I/O failures in the capture history, and the image encoding. On which side of its equals in time a new capture lands in the index is an input.
- The `popup` operation, window placement and closing, and the delay before an answer; `fieldSpec` and `fillTemplate`.
- FormBridge.Step: a command whose reply to the page fails after it has started.
- Blur redaction, drawing, text and OCR; canvas sizes beyond integers.
- UTF-8 checks, malformed JSON and failed writes in IPC; more than one connection.
- Inline Markdown, the HTML sanitizer, and splitting a text into lines.
- Keys.Parse: letters, digits, function keys and numpad digits are families here where the source lists them.
- Tray, capture, clipboard, updates, the matcher, the renderer and the configuration loader.
