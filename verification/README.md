# A model of the ISP billing backend's event, identity and access core

The backend sells hotspot access. It publishes domain events through a transactional outbox, mirrors tenants and
users from a central auth service by consuming at-least-once events, confirms payments from two sides, limits
credential attempts with a Redis script, seeds its role and permission tables at start-up, and turns plan durations
into router limits and expiry dates. This project states what that code does and proves what it keeps, for every
input and over every run.

| file | what it models |
|---|---|
| `OutboxProtocol.dfy` | the outbox as a state machine: committed rows, the broker's log, overlapping pollers with their own sessions, lost acknowledgements, crashes, failed commits |
| `OutboxPoller.dfy` | the poller as code over one store, proved to be a run of that machine; progress and the bounded wait |
| `Naming.dfy` | the name-picking loops: candidates, the cut to the column width, the pigeonhole argument |
| `Tenants.dfy`, `TenantTheorems.dfy` | the tenant handler as code against a specification; what every event and every redelivery keeps |
| `TenantFields.dfy` | what handling an event does, by the fields of the event and the columns of the table |
| `TenantReplicas.dfy` | consumer replicas interleaving statement by statement |
| `Users.dfy`, `UserTheorems.dfy` | SSO provisioning as code against a specification; keys, roles and crash recovery over any sequence of syncs; when the username loop ends |
| `UserFields.dfy` | what provisioning does, by the fields of the claims or the event |
| `UserReplicas.dfy` | replicas provisioning users statement by statement, with the two commits of creation |
| `UserOverlap.dfy` | the same replicas on any mix of claims: what every interleaving keeps |
| `RateLimit.dfy`, `RateLimitTheorems.dfy` | the Redis script and its two callers as code; the counter against a plain log of hits |
| `RateLimitAttempts.dfy` | the two layers of a credential attempt, sequential and interleaved |
| `Payments.dfy` | the purchase request, the payment consumer, the status poll and the legacy webhook around one provisioning routine |
| `PaymentFields.dfy` | what the payment callers do, by the webhook's body, the event's identifiers and the columns of the purchases |
| `PermissionTable.dfy`, `Rbac.dfy`, `RbacTheorems.dfy` | start-up seeding as code; its fixpoint and what it grants |
| `RbacScopes.dfy` | what seeding leaves, said without its tables: actions, modules of each role, the admin |
| `RbacStartups.dfy` | start-ups of several replicas at once, and edits of the platform settings beside them |
| `Binary64.dfy`, `PlanWindow.dfy` | round-to-nearest (section 4.3.1 of IEEE 754-2019) and the plan's duration arithmetic |
| `Secrets.dfy` | encrypted configuration trees and router credentials over an abstract cipher |
| `Text.dfy`, `Wrappers.dfy` | string handling of event fields; optional values and results |

Objects the source updates in place are classes here (`OutboxStore`, `TenantMirror`, `UserDirectory`, `RateLimiter`,
`PaymentDesk`, `SeedService`, `SecretsManager`). Their methods keep the source's branches and loops and are tied
by `ensures` to specification functions; the theorems are about those functions and about runs of them. What a
specification function computes is stated once more without it, by the fields it is given and the columns it leaves,
in the files named `...Fields.dfy`, in `RbacScopes.dfy` and in `BrokerByColumns`.

Parameters stand for what the code cannot decide: the broker's reply, fresh envelope ids, clocks, whether a commit
succeeds, how Redis fails, which 128-bit value a string spells as a UUID (`spell`), the rounding function (`fl`), and
the cipher.

## Where the code and its documentation disagree

The model follows the code.

- `_process_successful_payment` is documented as safe to re-run because completed purchases short-circuit
  (app/events/consumer.py:83-86), and the webhook as idempotent because it delegates to it
  (app/api/v1/portal/hotspot.py:1254-1256). The routine does not look at the status. The consumer and the poll do, on
  the row as they read it; the webhook does not (app/api/v1/portal/hotspot.py:1303-1321). A purchase is provisioned at
  most once exactly while no two callers hold it at once and no webhook finds it completed (`AtMostOnceIff`), and
  "completed" is final only under the like condition (`CompletedIsFinalIff`). An acknowledged event's purchase has been
  completed, but need not be so any more at the acknowledgement (`CompletedAtAckIff`, `AckedWhileProcessing`).
- A row is said to be given up after 10 attempts (app/events/outbox.py:38). An overlapping poller that loaded the row
  earlier still publishes it, or writes its own smaller counter over the cap (`DeadIsFinalIff`, `DeadRowComesBack`).
- Roles are said to be re-mapped on every sync (app/core/sso.py:295). Claims that map to CUSTOMER never change a
  role, not even an explicit customer role (`RoleOverRun`).
- The local uuid is said to be the auth tenant's (app/events/consumer.py:156-158). Event by event it is. Under
  overlap it is exactly while no session commits a tenant id alone onto a row whose uuid another has moved since it
  was loaded (`LinkedRunIff`); over all runs it is sure to stay exactly without overlapping sessions (`LinksStayIff`).
  A slug match can hand a linked organization to another tenant (`LinkMovesIff`).
- A user's organization is only set where there is none (app/core/sso.py:357-358). Two overlapping syncs can still set
  it twice; it is kept on all runs exactly without overlapping sessions (`OrgsStayIff`).
- Redis keeps a key through the millisecond its expiry names, so a hit exactly at the end of Retry-After can be
  rejected once more (`RetryAfterHolds` says exactly when).
- Seeding is called idempotent. It fails when some required permission has several resource-less rows, which the
  unique constraint does not exclude because it spans a NULL column (`SeedSucceedsIff`), and a start-up also when there
  are several settings rows, which no constraint excludes (`StartupSucceedsIff`). Overlapping start-ups can leave such
  rows for good. From a given database they cannot exactly if two things hold (`StaysGoodFromIff`): no required
  permission is missing, or a required grant of an existing one is, or there is neither an admin nor a password; and
  the settings row is there, or a required grant or the admin is missing and nobody edits the settings meanwhile.
- A new username is said to be unique after de-duplication (app/core/sso.py:371). On a base of 41 to 48 characters
  the loop can find every candidate taken and never end (`UsernameLoopCanStick`); when it ends is `UsernameLoopIff`.
- A nameless tenant event overwrites the stored name with a default (app/events/consumer.py:183), so nothing here
  says names are preserved.

## Model

| member | source | states |
|---|---|---|
| OutboxPoller.OutboxStore.RecordEvent | app/events/outbox.py:44-69 | recording is the protocol's record step: one row more, with the content, unpublished and without attempts; the broker is not touched |
| OutboxPoller.OutboxStore.SelectPending | app/events/outbox.py:100-107 | returns only rows unpublished after fewer than 10 attempts, oldest first, at most the limit; such a row is left out only if the batch is full of rows at least as old |
| OutboxPoller.OutboxStore.PublishBatch | app/events/outbox.py:119-134 | each row takes its own reply: stamped, or one attempt more; the broker gains one copy per stored publish, in order, each addressed by its columns (`SentIsFor`) |
| OutboxPoller.OutboxStore.PublishPending | app/events/outbox.py:87-145 | a whole poll is a run of the protocol; no-op when disabled, unconnected or idle; a failed commit changes no row; returns the accepted count. Every message it sends is addressed by its row's columns; after a commit each accepted row has its answer's time as stamp and its message in the new part of the log, each refused row one attempt more, and the other rows stay |
| OutboxProtocol.RunThrough | app/events/outbox.py:119-135 | steps that lead from state to state extend a run to its last state |
| OutboxPoller.BrokerByColumns | app/events/outbox.py:72-122 | over every run from an empty table, by columns: each message has the subject aggregate type, dot, event type, so that an aggregate type without a dot is what stands before the first dot and the event type what stands after it; each comes from a row with its content, and each stamped row has such a message |
| OutboxPoller.SentIsFor | app/events/outbox.py:119-122 | every message of a poll is so addressed and sent for a selected row that the broker stored |
| OutboxPoller.SentDelivers | app/events/outbox.py:119-122 | every selected row that the broker stored has such a message |
| OutboxPoller.PollByColumns | app/events/outbox.py:119-135 | what a committed poll makes of each row: stamped at the time of its answer with its message sent, one attempt more, or unchanged |
| OutboxPoller.WholePoll | app/events/outbox.py:99-135 | select, publishes and commit (or abandon) form a run whose last state is the written-back table and the longer log |
| OutboxPoller.PolledByCommit | app/events/outbox.py:119-135 | the commit's absolute column writes leave each selected row with its own reply and every other row as it was |
| OutboxPoller.CountIsNewlyStamped | app/events/outbox.py:115-145 | the returned count is the number of rows newly stamped |
| OutboxProtocol.StepSafe | app/events/outbox.py:99-135 | every step keeps the invariant on rows, log and in-flight sessions, and never loses or un-stamps a row |
| OutboxProtocol.CommitSafe | app/events/outbox.py:135 | a commit of possibly stale sessions keeps the invariant |
| OutboxProtocol.CommitWrites | app/events/outbox.py:123-135 | what a possibly stale commit writes: of an accepted row only the stamp, of a refused one only the counter, one more than it loaded |
| OutboxProtocol.PublishSafe | app/events/outbox.py:119-134 | so does a publish, accepted, refused, or stored with a lost acknowledgement |
| OutboxProtocol.RunSafe | app/events/outbox.py:99-135 | the same over every interleaving of any number of pollers |
| OutboxProtocol.OutboxSafety | app/events/outbox.py:99-135 | from an empty table: a stamped row has a copy in the broker, every copy comes from a committed row, and attempts stay within 0..10; what subject a copy has is `BrokerByColumns` |
| OutboxProtocol.DeadIsFinalIff | app/events/outbox.py:38-39 | a dead row never changes again on any run exactly if every session still holding it would write it back as it is |
| OutboxProtocol.Finish | app/events/outbox.py:119-135 | any poller in flight can finish and commit, and what its row then is |
| OutboxProtocol.FrozenForever | app/events/outbox.py:100-106 | a frozen dead row is kept by every run |
| OutboxProtocol.DeadRowComesBack | app/events/outbox.py:38-39 | a concrete run in which a row ten polls gave up on is pending again with one attempt |
| OutboxPoller.PollSpends | app/events/outbox.py:119-135 | a committed poll lowers the attempts left over any set holding its batch by at least the batch size |
| OutboxPoller.BudgetBound | app/events/outbox.py:39 | the attempts left are at most 10 for each pending row |
| OutboxPoller.MissesSpend | app/events/outbox.py:100-106 | polls that pass over a row each spend a full batch on rows at least as old |
| OutboxPoller.BoundedWait | app/events/outbox.py:100-134 | a pending row with k pending rows at least as old is passed over by at most k/10 polls, however the broker answers |
| OutboxPoller.PollsDrain | app/events/outbox.py:115-145 | with no new rows there are at most as many non-empty committed polls as attempts left |
| OutboxPoller.EmptyPollMeansDone | app/events/outbox.py:107-109 | a poll may select nothing exactly when every row is published or dead |
| Naming.DecimalSpells | app/core/sso.py:379 | a counter is printed in digits that spell it, without a leading zero |
| Naming.PickedIff | app/core/sso.py:374-380 | the loop ends with a name exactly if it is the first unused one of the base, and as much of base, separator and counter as the column is wide |
| Naming.DecimalInjective | app/core/sso.py:379 | two counters never print alike |
| Naming.CandidatesDistinct | app/core/sso.py:371-380 | while the cut leaves the counter whole, no two probes ask for the same name |
| Naming.UsedProbesBounded | app/core/sso.py:375-380 | n distinct taken probes need n taken names |
| Naming.LoopEndsWithinUsed | app/events/consumer.py:263-273 | with room for the counter the loop ends within one probe more than there are taken names, on a name that fits |
| Naming.LoopWithRoom | app/core/sso.py:371-380 | with room for d digits of the counter the loop ends exactly if one of the first 10^d candidates is unused |
| Naming.LoopWithoutRoom | app/core/sso.py:371-380 | without room for a digit the loop ends exactly if one of two names is free |
| Tenants.TenantMirror.HandleAuthTenant | app/events/consumer.py:174-286 | one delivery does exactly what the specification `Deliver` says: match by id, UUID, slug, sync or create, commit or nak; by the fields of the event `Deliver` is given by `SkippedChangesNothing` and `DeliveredIff` |
| TenantFields.SaysIff | app/events/consumer.py:174-203 | the handler reads an event as a request exactly if the event says it, field by field: not another product's use case, the first id given and the UUID it spells, the first name or the default, the first slug stripped and lowered, e-mail and phone |
| TenantFields.EverySaid | app/events/consumer.py:174-203 | an event says nothing exactly if its stripped and lowered use case is neither empty nor one of the seven, or its first non-empty id is missing or spells no UUID |
| TenantFields.SkippedChangesNothing | app/events/consumer.py:178-203 | such an event is acknowledged and leaves the table alone |
| TenantFields.MatchIff | app/events/consumer.py:206-223 | which organization is matched: by id; if none has it, by UUID; if none has either, by slug |
| TenantFields.DeliveredIff | app/events/consumer.py:206-286 | any other event is acknowledged exactly with the table that mirrors it, column by column, if that fits the column widths, and is refused without a change if it does not: the matched organization gets id, UUID, name and a slug nobody else has, and keeps the rest; a new one also gets e-mail, phone, status trial and a trial end 14 days on |
| TenantFields.AckedMirrors | app/events/consumer.py:206-286 | an acknowledged delivery leaves that table whether or not links were true before |
| TenantFields.AckedOnce | app/events/consumer.py:206-286 | afterwards exactly one organization has the id, with its UUID and the name the event says |
| Tenants.TenantMirror.Sync | app/events/consumer.py:225-260 | the matched organization gets id, UUID, name and an untaken slug; nothing else changes |
| Tenants.TenantMirror.Create | app/events/consumer.py:262-287 | the new organization takes the first free slug candidate |
| Tenants.ClashIff | app/events/consumer.py:206-287 | a session's write clashes on a unique key exactly if one organization has the tenant's id and another its UUID |
| TenantTheorems.ProposalKeeps | app/events/consumer.py:206-287 | with links true before, an event keeps keys unique and links true, adds at most one organization and changes none but the matched one |
| TenantTheorems.DeliveryKeeps | app/events/consumer.py:387-401 | the same for a whole delivery; a lost commit is lost to a column width only |
| TenantTheorems.LinkMovesIff | app/events/consumer.py:218-233 | a linked organization's UUID changes exactly for an event unknown by id and UUID whose slug is the organization's |
| TenantTheorems.LinkStableRun | app/events/consumer.py:206-287 | over a run whose tenants keep their slugs apart a linked organization keeps its UUID and link |
| TenantTheorems.EventSlugFirstProbe | app/events/consumer.py:218-223 | an event's own slug is free at the first probe |
| TenantTheorems.GeneratedSlugLoop | app/events/consumer.py:263-273 | on the generated base of at most 12 characters the loop ends within the number of organizations plus one, on a fitting slug, below 10^87 organizations |
| TenantTheorems.AckedIsSynced | app/events/consumer.py:225-286 | after an acknowledged delivery the tenant is found by its id with nothing left to change |
| TenantTheorems.Redelivery | app/events/consumer.py:206-287 | handling an event twice in a row equals handling it once, on every path |
| TenantTheorems.RedeliveredRun | app/events/consumer.py:387-401 | a run with immediate redeliveries ends in the table of the run without them |
| TenantReplicas.LoneReplica | app/events/consumer.py:206-287 | a replica that nobody disturbs, statement by statement, does what the handler does, acknowledgement included |
| TenantReplicas.ReadSafe | app/events/consumer.py:209-272 | each read keeps what a replica may believe about the base table |
| TenantReplicas.CommitSafe | app/events/consumer.py:247-287 | an accepted commit of any such replica makes, or keeps, the undisturbed result |
| TenantReplicas.RunSafe | app/events/consumer.py:206-287 | the invariant over every interleaving and crash |
| TenantReplicas.ReplicasConverge | app/events/consumer.py:387-401 | any number of replicas on one event leave the table untouched or as one undisturbed delivery makes it, the latter once one is acknowledged; one more delivery converges |
| TenantReplicas.CommitLinksIff | app/events/consumer.py:227-247 | a commit keeps every link of the table true exactly if it does not write an id alone onto a row whose UUID has moved since it was loaded |
| TenantReplicas.LinkedRunIff | app/events/consumer.py:156-158 | over replicas handling any mix of tenants, links are true throughout a run exactly if no accepted commit of the run does that |
| TenantReplicas.OverlapBreaksLink | app/events/consumer.py:209-247 | for any two tenants, a run of their overlapping events, both acknowledged, after which a link is false |
| TenantReplicas.LinksStayIff | app/events/consumer.py:156-158 | links stay true on all runs with at most n sessions at a time exactly if n <= 1 |
| Users.UserDirectory.ProvisionSsoUser | app/core/sso.py:290-411 | provisioning does exactly what the specification `Provision` says: match by subject, e-mail, sync or create, then link the role; by the fields of the claims `Provision` is given by `NamelessRefused` and `ProvisionedIff` |
| UserFields.MapsIff | app/core/sso.py:185-206 | by the claims' role strings, stripped and lowered: platform owner exactly if marked so or one is platform_owner, else admin exactly if one is in the admin list, else technician exactly if one is in the technician list, else customer |
| UserFields.MoreRolesNeverLower | app/core/sso.py:185-206 | adding roles, or the platform owner mark, never lowers the mapped role |
| UserFields.OtherRolesAreNothing | app/core/sso.py:185-206 | a role outside the three lists changes nothing |
| UserFields.BelongsIff | app/core/sso.py:249-277 | the organization of the claims: the one with their slug; if none has it, the one with the UUID their tenant id spells |
| UserFields.CalledIff | app/core/sso.py:280-287 | first and last name: the stripped full name split at its first blank, or twice what stands before the at sign of the e-mail |
| UserFields.BaseIff | app/core/sso.py:372 | the username's base, by e-mail and subject |
| UserFields.MatchIff | app/core/sso.py:315-330 | which user is matched: by subject; if none has it, by e-mail |
| UserFields.SyncedIff | app/core/sso.py:334-367 | a matched user after a sync, column by column |
| UserFields.NewcomerIff | app/core/sso.py:369-403 | a new user, column by column |
| UserFields.NamelessRefused | app/core/sso.py:300-306 | claims are refused as unauthorized exactly without a subject and an e-mail |
| UserFields.ProvisionedIff | app/core/sso.py:290-411 | any other claims are done exactly with the table so described, if its keys are unique and its values fit their columns, and otherwise the commit fails and nothing changes |
| Users.UserDirectory.SyncUser | app/core/sso.py:334-367 | subject, sync time, role policy, first organization and role link of the matched user, as `SyncedIff` says by the fields of the claims; nothing else |
| Users.UserDirectory.CreateUser | app/core/sso.py:369-399 | the new user takes the first free username candidate, up to the first commit; its columns are `NewcomerIff` |
| Users.UserDirectory.HandleAuthUser | app/events/consumer.py:333-362 | an event naming no user is skipped; otherwise it provisions, and never as unauthorized |
| Users.ClaimsOf | app/events/consumer.py:333-352 | translated claims always carry a subject or an e-mail |
| UserFields.TranslatesIff | app/events/consumer.py:333-352 | an event is read as the claims it translates to, field by field, unless it names neither a user id nor an e-mail |
| UserTheorems.ClashIff | app/core/sso.py:317-399 | a write clashes on a unique key exactly if a new user without e-mail gets an invented address somebody has; relinking never doubles a subject |
| UserTheorems.SyncsKeep | app/core/sso.py:334-367 | over any run usernames, e-mails, an organization once set, and a role above customer survive, and no user disappears |
| UserTheorems.SyncsKeepKeys | app/core/sso.py:317-399 | no two users share a username, e-mail or subject, and no sync fails on a key, if invented addresses are owned when one is invented |
| UserFields.RoleSyncedIff | app/core/sso.py:345-356 | a sync gives a matched user the role the claims' strings map to, unless that is customer: then it keeps its role |
| UserTheorems.RoleOverRun | app/core/sso.py:345-356 | a user's role is the last mapped role above customer, or the initial one |
| UserTheorems.FoundAgain | app/core/sso.py:317-330 | the claims that made or synced a user find the same user again |
| UserTheorems.CrashHealed | app/core/sso.py:398-403 | a crash between the two commits of creation is healed by redelivery, in every field but the sync time |
| UserTheorems.UsernameLoop | app/core/sso.py:371-380 | on a base of at most 40 characters and below 10^9 users the loop ends within the number of users plus one lookups, on an unused name of at most 50 |
| UserTheorems.LongBaseIff | app/core/sso.py:372 | the base is longer than 40 exactly for an e-mail with nothing before its @ and a long subject |
| UserTheorems.RoomyUsernameLoop | app/core/sso.py:371-380 | with room for d digits and fewer than 10^d users the loop ends within the number of users plus one lookups, on an unused fitting name |
| UserTheorems.UsernameLoopIff | app/core/sso.py:371-380 | for every base: with room for d digits the loop ends exactly if one of the first 10^d candidates is unused, without room exactly if one of two names is |
| UserTheorems.UsernameLoopCanStick | app/core/sso.py:371-380 | the bound is tight: for every claim with a base of 41 to 48 characters a storable table of exactly 10^d users on which provisioning never ends |
| UserReplicas.LoneReplica | app/core/sso.py:317-403 | a replica that nobody disturbs, statement by statement and with both commits of creation, does what provisioning does |
| UserReplicas.ReadSafe | app/core/sso.py:317-376 | each read keeps what a replica may believe about the base table |
| UserReplicas.UpdateSafe | app/core/sso.py:336-363 | an accepted sync commit makes the whole table, whatever others wrote meanwhile |
| UserReplicas.InsertSafe | app/core/sso.py:382-399 | a creation is accepted only on the base table; after another's it clashes on the subject or e-mail |
| UserReplicas.ReplicasConverge | app/core/sso.py:290-411 | any number of replicas on one set of claims leave the table as it was, or as one undisturbed delivery or its first commit makes it, up to sync times; whole once one is done; one more delivery converges |
| UserOverlap.AccountsOverRun | app/core/sso.py:336-363 | in every interleaving of any claims no user disappears or is renamed, a user linked to some subject stays linked to one, a role link once there stays, and a role above customer never falls back |
| UserOverlap.WriteKeepsOrgsIff | app/core/sso.py:357-363 | a commit keeps every organization set so far exactly if it is not that of a session whose claims name one for a user it loaded without, and who has another by now |
| UserOverlap.OrgsKeptIff | app/core/sso.py:357-363 | over replicas on any mix of claims, an organization once set is kept throughout a run exactly if no accepted commit of the run is of that kind |
| UserOverlap.OverlapMovesOrg | app/core/sso.py:357-363 | for any two claims of one user that name different organizations, an overlapping run in which the second replaces the first |
| UserOverlap.OrgsStayIff | app/core/sso.py:357-363 | organizations once set are kept on all runs with at most n sessions at a time exactly if n <= 1 |
| UserReplicas.RaceForName | app/core/sso.py:374-399 | of two people racing for one username the second is refused, and its redelivery takes another name |
| Text.StripIff | app/core/sso.py:301 | stripping takes away the white space around the text and nothing else |
| Text.LowerIff | app/core/sso.py:301 | lowering turns capital letters into small ones and keeps every other character |
| Text.FirstOfIff | app/events/consumer.py:93-94 | a chain of `or` is the first field present and not empty, in that order |
| Text.CleanTwice | app/core/sso.py:301 | stripping and lowering is idempotent, so events and claims are read alike |
| RateLimit.RateLimiter.RunScript | app/core/rate_limit.py:31-45 | the script's commands compute its reply and new store |
| RateLimit.RateLimiter.Enforce | app/core/rate_limit.py:48-76 | admitted when disabled or when Redis fails; otherwise by the script's reply, with Retry-After rounded up and at least 1; no key but isp:rl: and the given one is touched |
| RateLimit.RateLimiter.LimitCredentialAttempt | app/core/rate_limit.py:79-93 | counts scope:ip:address against the IP limit, and then, only if that admits and an identifier is given, scope:id: and the stripped and lowered identifier against 10 in 300 seconds |
| RateLimitTheorems.StoreIsLog | app/core/rate_limit.py:31-45 | the stored counter is the number of logged hits in the current window, its expiry the window's end |
| RateLimitTheorems.VerdictIsLog | app/core/rate_limit.py:57-76 | a hit is admitted exactly if its call was lost or it is among the first `limit` logged hits of its window |
| RateLimitTheorems.WindowBound | app/core/rate_limit.py:31-45 | each window admits at most the limit of the hits Redis answered |
| RateLimitTheorems.IntervalCovered | app/core/rate_limit.py:31-45 | the admitted hits of any interval of a window's length lie in at most two windows' first places |
| RateLimitTheorems.IntervalBound | app/core/rate_limit.py:57-76 | any interval of the window's length holds at most twice the limit of admitted hits, plus one per lost call |
| RateLimitTheorems.KeysAlwaysTimed | app/core/rate_limit.py:33-40 | from an empty store no key is ever without a time to live |
| RateLimitTheorems.RejectionEnds | app/core/rate_limit.py:36-43 | from any store with no expiry beyond a window: a rejected key, even one found without a time to live, has one afterwards that Retry-After covers |
| RateLimitTheorems.RetryAfterHolds | app/core/rate_limit.py:70-76 | over any run from an empty store Retry-After lies between 1 and the window, and the next answered hit on the key is admitted exactly after the window's end, which lies within the wait |
| RateLimitAttempts.HitsInOrder | app/core/rate_limit.py:83-93 | the hits of attempts made one after the other come in clock order |
| RateLimitAttempts.SameCounterIff | app/core/rate_limit.py:88-93 | two identifiers share a counter of a scope exactly if they are equal once stripped and lowered; counters of different scopes are different |
| RateLimitAttempts.KeysApart | app/core/rate_limit.py:83-93 | an IP key never spells an account's key, whatever the IP and the account are, if no scope followed by a colon contains `:ip:` or `:id:` |
| RateLimitAttempts.SeparateApart | app/core/rate_limit.py:83-93 | nor does it if the account's own key contains no `:ip:`, whatever the other scopes are |
| RateLimitAttempts.AccountBound | app/core/rate_limit.py:79-93 | however many IPs are used and however its name is spelled, at most 20 attempts on one account, those whose stripped and lowered identifier is the account's, pass in any 300 seconds, plus one per lost call |
| RateLimitAttempts.IpBound | app/core/rate_limit.py:79-87 | from one IP, whatever accounts it tries, at most twice the IP limit of attempts on a scope pass in any interval of the IP window's length, plus one per lost call |
| RateLimitAttempts.GateOverMoves | app/core/rate_limit.py:79-93 | however the two calls of concurrent attempts interleave, their hits come in clock order, uniform on the account's key, and a passed attempt left an admitted hit on the counter of its stripped and lowered identifier |
| RateLimitAttempts.InterleavedBound | app/core/rate_limit.py:79-93 | the same bound on an account, however spelled, over every interleaving of attempts whose two calls are separate steps |
| Payments.PaymentDesk.HandlePaymentSucceeded | app/events/consumer.py:92-149 | one delivery with nothing else going on; an acknowledgement means completed, no match, or organization missing; by the fields of the event it is `DeliveryByFields` |
| Payments.PaymentDesk.PaymentWebhook | app/api/v1/portal/hotspot.py:1271-1324 | one webhook call with nothing else going on does what the specification `WebhookAlone` says; by the fields of the body that is `StkActs`, `GatewayActs` and `GenericActs` |
| PaymentFields.StkActs | app/api/v1/portal/hotspot.py:1276-1280 | an STK body is looked up by its checkout id; result code 0 is paid: the one purchase found is completed with one voucher more, which is its own, if its plan is there; any other code, or none, marks it failed and leaves vouchers alone, unless the commit fails; without an id or a purchase nothing changes, and several purchases raise |
| PaymentFields.GatewayActs | app/api/v1/portal/hotspot.py:1283-1291 | a Paystack body is looked up by its data's reference; "charge.success" is paid, "charge.failed" and "transfer.failed" are failed in the same sense, and any other event changes nothing |
| PaymentFields.GenericActs | app/api/v1/portal/hotspot.py:1294-1296 | a generic body is looked up by its reference; a missing status or "completed" is paid, "failed" is failed, and any other status changes nothing |
| PaymentFields.VoucherOnlyWhenPaid | app/api/v1/portal/hotspot.py:1271-1324 | the webhook makes a voucher only for a body that says paid under some reference, and a body in no format changes nothing |
| PaymentFields.WebhookAlwaysProvisions | app/api/v1/portal/hotspot.py:1303-1318 | every body that says paid, for the one purchase of the organization under its reference, makes one more voucher for it when it can provision, whatever its status |
| PaymentFields.WebhookIsRun | app/api/v1/portal/hotspot.py:1303-1321 | in the state machine a webhook call undisturbed between its read and its write does what the webhook does |
| PaymentFields.DeliveryByFields | app/events/consumer.py:92-149 | one delivery by fields: the intent is the first of intent_id, id and aggregate_id, the reference the first of reference_id and reference; the purchase is the one with the intent, or if none has it the one with the reference; completed or without its organization it is left alone, otherwise it is paid; no match is acknowledged and several raise |
| PaymentFields.DeliveryIsRun | app/events/consumer.py:97-149 | in the state machine an undisturbed delivery does what the handler does, and acknowledges exactly when it does |
| PaymentFields.PollByFields | app/api/v1/portal/hotspot.py:1343-1368 | the poll goes on exactly with the one purchase of the organization under the reference that is processing and has an intent |
| Payments.PaymentDesk.ProcessSuccessfulPayment | app/api/v1/portal/hotspot.py:1458-1665 | completes the purchase, with a voucher unless the plan is gone or an exception cuts it short; a failed commit changes nothing and is passed on, as is an exception after the voucher's commit |
| Payments.Find | app/events/consumer.py:100-113 | a lookup on a column that is not unique: no row, the only row, or an error for several |
| Payments.PollReads | app/api/v1/portal/hotspot.py:1343-1368 | the poll goes on only with a processing purchase |
| Payments.ConsumerReads | app/events/consumer.py:97-142 | the consumer goes on only with a purchase it read as not completed |
| Payments.OnceOverRun | app/events/consumer.py:124-149 | while at most one caller, the purchase request included, holds a purchase at a time and no webhook finds it completed, it gets at most one voucher |
| Payments.OverlapProvisionsTwice | app/api/v1/portal/hotspot.py:1365-1397 | a concrete run of an event and a poll that overlap and make two vouchers |
| Payments.LateWebhookProvisionsTwice | app/api/v1/portal/hotspot.py:1303-1318 | a concrete run of an event and a later webhook, one after the other, that make two vouchers |
| Payments.AtMostOnceIff | app/events/consumer.py:83-86 | at most once on all runs with at most n callers at a time, with or without webhooks that find the purchase completed, exactly if n is 0, or n is 1 and there are no such webhooks |
| Payments.ConsumersOwn | app/events/consumer.py:99-113 | every consumer in flight holds the purchase that its own delivery's event resolved to at its read |
| Payments.AckMeansHandled | app/events/consumer.py:387-391 | in any interleaving a delivery about to be acknowledged matched nothing at its own read, or one purchase that at some moment from that read on was completed or without its organization |
| Payments.AckedReadHandled | app/events/consumer.py:387-391 | said of any such read: the acknowledged delivery did not match several purchases, and a single one has been handled since |
| Payments.CompletedAtAckIff | app/events/consumer.py:387-391 | a completed purchase is sure to be completed still at a pending acknowledgement exactly if no request, poll or failing webhook that loaded it earlier is in flight and, unless late webhooks are excluded, none can find it |
| Payments.AckedWhileProcessing | app/api/v1/portal/hotspot.py:809-818 | a concrete run in which treasury's late answer to the purchase request overwrites the status between provisioning and acknowledgement |
| Payments.CompletedIsFinalIff | app/api/v1/portal/hotspot.py:1316-1321 | a completed purchase stays completed on every run exactly if no request, poll or failing webhook that loaded it earlier is in flight and, unless late webhooks are excluded, none can find it |
| PermissionTable.KeysDistinct | app/core/seed_service.py:35-129 | no module and action pair occurs twice in the permission table |
| RbacScopes.RequiredIff | app/core/seed_service.py:35-129 | the required permissions, action by action: create and delete where there are records (create also on payouts), read everywhere but on four switches, update on records and settings, manage on records, switches and what else is run |
| RbacScopes.MayUseIff | app/core/seed_service.py:131-179 | which modules a role may use: superuser all; admin all but the platform's, the portal's and backups; technician those of the admin but for money, appearance and looking back; customer the portal and notifications |
| Rbac.SeedService.GetOrCreateRole | app/core/seed_service.py:235-251 | a role of that name exists afterwards; no role changes, and a new one, added exactly if there was none, is a system role without grants |
| RbacTheorems.WithRolesKeeps | app/core/seed_service.py:277-281 | creating the system roles keeps every role as it is and names unique, adds only roles without grants, and leaves each system role present |
| Rbac.SeedService.GetOrCreatePermission | app/core/seed_service.py:254-270 | finds the only plain row or adds it; several rows raise |
| Rbac.SeedService.CreatePermissions | app/core/seed_service.py:283-288 | the collected ids are those of the required keys in the final table |
| Rbac.SeedService.GrantRole | app/core/seed_service.py:290-315 | appends to a role the scoped permissions it did not have |
| Rbac.SeedService.SeedPlatformAdmin | app/core/seed_service.py:328-376 | finds the admin by username or e-mail and links it, or makes it, or raises without a password |
| RbacScopes.AdminIff | app/core/seed_service.py:328-376 | seeding the admin leaves exactly these users: the one named superuser, or if there is none the one with the configured e-mail, linked to the role; or a new one, column by column, which needs a password; it fails when that cannot be stored |
| Rbac.SeedService.RunStartupSeeds | app/core/seed_service.py:186-228 | all of roles, permissions, admin and settings, or nothing |
| RbacTheorems.StartupSucceedsIff | app/core/seed_service.py:328-384 | a start-up succeeds exactly if no required permission has several plain rows, the admin exists or can be made, and there are not several settings rows |
| RbacTheorems.SeedSucceedsIff | app/core/seed_service.py:257-264 | seeding raises exactly if some required permission has several plain rows |
| RbacTheorems.SeedCreates | app/core/seed_service.py:277-288 | afterwards the system roles and one plain row per key exist, and no existing row changed |
| RbacTheorems.SeedGrants | app/core/seed_service.py:290-315 | each role has exactly its old permissions and its required ones, no pair twice |
| RbacScopes.RoleEndsWith | app/core/seed_service.py:290-315 | each role ends with exactly its old permissions and those rows whose action is required on a module it may use, none twice |
| RbacScopes.PlatformStaysWithSuperuser | app/core/seed_service.py:290-315 | seeding gives a permission on a platform module, or on backups, to no role but superuser |
| RbacScopes.FourRoles | app/core/seed_service.py:277-281 | superuser, admin, technician and customer exist afterwards |
| RbacTheorems.SeedKeepsConsistent | app/core/seed_service.py:273-325 | names stay unique and grants refer to existing permissions |
| RbacTheorems.SeedRbacTwice | app/core/seed_service.py:273-325 | seeding roles and permissions twice equals seeding them once |
| RbacTheorems.SeedTwice | app/core/seed_service.py:328-376 | after a start-up the admin exists with the superuser role, and a second start-up changes nothing |
| RbacStartups.LoneRun | app/core/seed_service.py:186-228 | start-ups and settings edits one at a time leave no key and no settings with several rows |
| RbacStartups.OverlapDoublesPermission | app/core/seed_service.py:257-269 | from every database with its required grants that lacks a required permission, a run of two overlapping start-ups that both succeed and leave it with two rows |
| RbacStartups.OverlapDoublesSettings | app/core/seed_service.py:379-404 | from every such database with an admin but no settings row, one that leaves two settings rows |
| RbacStartups.EditsDoubleSettings | app/api/v1/platform/settings.py:83-97 | two overlapping edits do so on any database without a settings row |
| RbacStartups.BadForever | app/core/seed_service.py:257-264 | once several rows are there no start-up succeeds any more |
| RbacStartups.MissingGrantProtects | app/core/seed_service.py:290-315 | while a required grant of an existing permission is missing, start-ups may overlap in any way: the first to commit makes it and the others that began before are refused |
| RbacStartups.MissingAdminProtects | app/core/seed_service.py:333-368 | on complete permissions without an admin and a settings row, the first start-up to commit makes both and the unique username refuses the others that found neither |
| RbacStartups.StaysGoodFromIff | app/core/seed_service.py:186-228 | from a given database, with at most n transactions at a time, start-ups go on finding no several rows exactly if n <= 1, or overlap can double neither a permission nor the settings row, each by a condition on the database |
| RbacStartups.StaysGoodIff | app/core/seed_service.py:1-5 | from every database on which they find none, exactly if n <= 1 |
| RbacTheorems.ProvisionedUsersArePermitted | app/core/sso.py:209-246 | after seeding every user that provisioning finishes has a link to the role of its name, with all that role requires |
| Binary64.RelativeError | app/models/plan.py:165 | rounding to nearest a normal value errs by at most 2^-53 of it |
| Binary64.AbsoluteError | app/models/plan.py:208 | rounding to nearest a value up to 2^52 moves it by at most one half |
| Binary64.NearestExists | app/models/plan.py:165 | every real from 0 to below 2^1022 has a nearest representable value |
| Binary64.RoundingExists | app/models/plan.py:165 | there is a rounding as the plan theorems assume one |
| PlanWindow.UptimeExact | app/models/plan.py:172-191 | the router's limit is exactly 60 times the duration for every positive 32-bit duration, else the smaller positive of validity and time limit, in seconds |
| PlanWindow.SomeMachine | app/models/plan.py:172-191 | there is a machine, in the sense of the theorems about roundings, on which the limit is exact |
| PlanWindow.ExpiryAgrees | app/models/plan.py:198-212 | the calendar expiry agrees with that limit to the nearest second and within 16 microseconds; without a window the churn fallback binds, and there is no expiry exactly without both |
| PlanWindow.ExpiryOverflow | app/models/plan.py:206-211 | without a duration the addition overflows exactly past the last representable time; with one, only and always beyond 16 microseconds around it |
| Secrets.SecretsManager.EncryptDict | app/core/secrets.py:202-224 | every string under a sensitive key, through nested dictionaries, becomes a token of itself; all else is unchanged |
| Secrets.SecretsManager.DecryptDict | app/core/secrets.py:226-252 | computes the reading-back function, keeping what does not decrypt |
| Secrets.SensitiveIff | app/core/secrets.py:213-217 | a key is sensitive exactly if it holds password, secret, key, token or credential somewhere, in any case |
| Secrets.SealedByMarker | app/core/secrets.py:214-224 | under a key that holds a marker a string becomes a token of itself, under any other it stays |
| Secrets.MixedOpens | app/core/secrets.py:238-246 | reading back a partly encrypted tree gives the plain tree |
| Secrets.RoundTrip | app/core/secrets.py:202-252 | reading back is the inverse of encrypting, on every tree; twice for twice |
| Secrets.PlainUnchangedIff | app/core/secrets.py:240-246 | reading back plain data changes nothing exactly if none of its secrets is a token of something else |
| Secrets.NothingInTheClear | app/core/secrets.py:214-224 | after encryption every secret decrypts |
| Secrets.DecryptedJoins | app/core/encryption.py:40-59 | a token opens to credentials exactly if its text has a colon, and they join to that text |
| Secrets.CredentialsIff | app/core/encryption.py:27-59 | credentials come back as they went in exactly if the username has no colon; otherwise the rest of it moves into the password |

## Left out

- Postgres, Redis, NATS and Celery clients, reconnects, the settle delay, signals and logging: only their steps are kept (commit or abort, atomic script, append to a log, redeliver, crash).
- Redis evictions, restarts and replication: only failing calls, with the script run or not, are modelled.
- Deletion of rows: nothing in the modelled code deletes rows, and a commit whose row is gone is not modelled.
- Outbox payloads: the JSON body is an opaque string and the timestamp a number; encoding failures count as refused publishes.
- Failures before the publish loop (no JetStream context, no stream): they end a poll like a crash, with no row changed.
- JSON fields that are not strings, and event or claim values coerced by `str()`: fields are optional strings.
- Unicode: case folding and stripping cover ASCII only (all its white space and separators), so names, keys and slugs beyond it are not claimed.
- Organization columns the handler writes once and never reads back (organization type), and defaults of unset columns.
- User columns the sync does not read: phone, company, password hash, status flags; the unique phone column is never written by this code.
- Auto-subscription after a tenant is created: best effort after the commit, its failure is only logged.
- TenantMirror.HandleAuthTenant: a slug loop that never ends is an outcome of the specification (`Stuck`) that the method's precondition excludes; the naming lemmas say when it cannot happen.
- UserDirectory.ProvisionSsoUser: the same for the username loop; when it ends is `UsernameLoopIff`.
- UserReplicas.ReplicasConverge: replicas overlap on one set of claims, with organizations and roles fixed meanwhile; for different claims that overlap, what is kept is stated (`UserOverlap`), but no convergence.
- TenantReplicas.ReplicasConverge: replicas overlap on deliveries of one event; for different events that overlap the link is decided exactly (`LinkedRunIff`), but no convergence is stated. Writers other than this handler, such as onboarding, which adds unlinked organizations, are not modelled.
- Payments.AtMostOnceIff: organizations and plans are fixed during a run; the treasury's answers are the choice between the steps a caller may take next.
- Provisioning after the voucher's commit (router commands, dashboard bridge, outbox rows it records): best effort, and only its late exceptions are kept.
- RateLimitAttempts.IpBound: scopes hold neither layer's mark, as all of the code's do, and attempts come one after the other.
- RateLimitAttempts.AccountBound: attempts come one after the other there; for attempts whose calls interleave the bound is `InterleavedBound`.
- Access-token checks, permission dependencies, tenant middleware: one-branch claims.
- Columns of the platform settings row: only how many rows there are is modelled.
- Binary64.Rounding: a nearest value for results between 0 and 2^100, all that the plan's arithmetic reaches; ties may go either way.
- PlanWindow.ExpiryOverflow: inside the 16 microseconds a duration's rounding can move the expiry, whether the addition overflows depends on that rounding and is not decided.
- RbacStartups.StaysGoodFromIff: the system roles exist; that first start-ups racing one another clash on the unique role names, and so roll back, is not modelled. An admin is there or not; that its new row may be refused for its e-mail is not modelled either.
- Administration routes for roles and permissions: not writers in any run of the model.
- Secrets.SecretsManager.EncryptDict: dictionary order and non-string keys are not modelled, and a cipher error other than an undecryptable token cannot happen.
- Key derivation, token format, password hashing and UUID syntax: parameters with one assumption (what is encrypted decrypts to itself).
- Migrations, schemas, pagination, billing, voucher redemption and the router command queue: table definitions or one-branch code.
