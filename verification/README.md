# HomeGate, modelled and proved

HomeGate lets the members of a household subscribe to self-hosted services. A MANAGED service has accounts of
its own that HomeGate creates and removes; a REFERENCED service borrows the accounts of a MANAGED one, so a
subscription to it is *derived* from the subscription to its account source. Scheduled loops expire and renew
subscriptions and reconcile them with the external services. This project models that engine, and six smaller
cores of the server, and proves what they promise.

**The subscription engine.** `Model` holds the rows and what makes a store well formed: the derivation forest
(`Forest`) and the statuses a store at rest may show (`AtRest`). `Store` is the database: a class whose methods
write one row at a time, with the foreign keys and unique keys of the schema. Every operation is a method on that
class that follows the code step by step, and is proved equal to a function on the whole store (its *outcome*);
the theorems are about those functions. `Cascade` propagates a source to its derived rows, `Expiration` is the
scheduled loop, `Subscriptions`, `Changes`, `Lifecycle` and `Services` are the operations of users and admins,
`Reconciliation` and `StaleAccounts` are the two synchronising tasks, and `History` puts any sequence of all of
them together. `Access` and `Listings` are the batch reads, `ForwardAuth` is the gate in front of the services.

**What an operation decides.** A method and its outcome share the functions they decide with, so each outcome is
pinned by lemmas of its own (`...Decides`, `...Writes`, `...Refuses`, `...Turns`): the exact condition of every
refusal and, column by column, every row and account afterwards, in literal values and without those functions.
`SvgRules` and the `...Decides` lemmas of the smaller cores do the same there.

**The smaller cores.** `Png` and `Svg` decide which uploads are accepted and what is published, and `SvgRules` says
which SVG files those are; `ImageLibrary` is the queue of changes to the image directory; `ConfigMerge` is the
settings store; `Invites` takes requests one at a time, `SignUps` lets sign-ups and administrators interleave
statement by statement, and `Issuing` does so with the requests that create invites; `Sessions` enforces the
per-user limit.

Time is an integer number of milliseconds and the renewal period is exactly 30 days, so daylight-saving shifts
are ignored. An operation reads the clock once. Ids are opaque: the id of a subscription row names the key it was
created for and a serial number, which makes ids unique and never reused. What the outside world answers is an
input: whether a provider was reached, which accounts it reports, in which order the database returns rows. Every
theorem holds for all such answers.

Where the code differs from what one would expect, the code is modelled and the difference is proved:

- The cascade of an expired source is skipped exactly when its provider was out of reach: the derived row is then
  still active in the store (`Expiration.DerivedOutlivesSourceIff`), though without standing entitlement, and
  retrying the failed expiration does not cascade either (`Lifecycle.RetriedExpirationDoesNotCascade`).
- Renewing a source never lengthens what is derived from it (`Changes.RenewalDoesNotSpread`).
- Linking an invited account never looks at the type of the service. On a REFERENCED service it would create an
  underived row, so the forest is kept exactly when it does not (`Services.LinkKeepsForest`); after a change of
  slug it can (`Services.InviteCanReachReferenced`), unless every provider's name is borne by its own service
  (`Services.OwnNamesKeepInvitesOff`).
- A failed disabling or enabling is recorded as a failed cancellation, so retrying it deletes the subscription
  (`Lifecycle.RetriedStatusChangeCancels`).
- A provider call that answers `false` is ignored: reconciliation goes on and still reports success, and falls short
  of its goal exactly when that call would have changed something (`Reconciliation.RefusalsCount`). Providers that
  go on listing deleted accounts are called about them in every run (`Reconciliation.TwoRunsConverge`).
- One reconciliation is enough exactly when no subscription lost one account and kept another
  (`Reconciliation.OneRunConvergesUnlessTorn`).
- The stale-account sweep of a service fails exactly when its listing throws or a subscription has two vanished
  accounts (`StaleAccounts.SweepService`, `StaleAccounts.CleanupStaleLocalAccounts`).
- PNG chunk types are read as ASCII text, which drops the top bit. `Png.CheckMeetsSpecification` says which files
  are judged otherwise than the specification would, in both directions; `Png.TopBitIsIgnored` is one.
- `server/docs/invites.md` promises at most one pending invite per email. Editing an invite keeps that exactly
  when the edit does not clash (`Invites.OnePerEmailKeptIffNoClash`); of simultaneous requests, one that overtakes
  another breaks it without any edit (`Issuing.TwinsIffOvertakenOrEdited`, `Issuing.TwoRequestsAtOnce`).
- An invite can end both used and revoked, exactly when a revocation decided on before the claim is written after
  it (`SignUps.BothIffLateRevocation`, `SignUps.LateRevokerDecidedFirst`).
- A sign-up can end with an account and no invite, exactly when its OAuth profile is taken when the account is to be
  linked, or the invite is no longer available at the claim (`SignUps.AccountWithoutInviteIff`). The first needs no
  race and leaves the invite pending (`SignUps.KnownProfileKeepsInvitePending`). A sign-up that claimed its invite
  is told otherwise exactly when the invite is deleted in that moment (`SignUps.WinnerRefusedIffErased`).
- An image that comes into use between the check and the commit of its removal is removed, and only then
  (`ImageLibrary.RemovedIffUnusedAtCheck`).
- The session limit can be exceeded by as many logins as one login overtakes, and by sessions that come back when a
  request still under way saves them (`Sessions.ExceedsIffOvertaken`, `Sessions.SavedSessionExceedsLimit`).
- The forward-auth cache misses an event exactly when it arrives while an answer is being computed
  (`ForwardAuth.MissedIffDuringEvaluation`); the scheduled loop emits no event at all, so the cache promises bounded
  staleness, not freshness.

Check everything with `dafny verify dfyconfig.toml`.

## Model

| member | source | states |
|---|---|---|
| Model.DerivedRowsAreLeaves | server/src/api/services/serviceManagement.service.ts:156-183 | In a forest derivation is one level deep: whatever something derives from is a root on a MANAGED service, of the same user. |
| Store.Database.Create | server/prisma/models/entities.prisma:84-116 | A row is created exactly when its (user, service) key is free and its user, its service and the row it derives from exist; otherwise a conflict and nothing changes. |
| Store.Database.Update | server/src/data/repositories/subscription.repository.ts:131-145 | Updating an absent row, or deriving one from a row that does not exist, is an error that changes nothing; otherwise one row changes. |
| Store.Database.Delete | server/src/data/repositories/subscription.repository.ts:147-158 | Deleting an absent row is an error; otherwise the row goes together with its accounts and derived rows. |
| Store.Database.CreateAccount | server/prisma/models/entities.prisma:120-142 | An account is linked exactly when its subscription, user and service exist and its external id, if it has one, is free on its service. |
| Store.ConstraintsDecide | server/prisma/models/entities.prisma:84-135 | What the database asks of a write, in the columns of its tables: which keys must be free and which rows must exist for a row, a derivation and an account. |
| Store.RemoveKeepsForest | server/prisma/models/entities.prisma:106-116 | One level of cascading leaves a forest with no dangling reference, and exactly the row and what derives from it go. |
| Cascade.EntitlementNeedsSource | server/src/core/subscriptions/subscriptionCascade.service.ts:26-58 | The effective entitlement on a REFERENCED service stands exactly while the row and the same user's row on the MANAGED source are both live, and it ends no later than either. |
| Cascade.EntitlementDecides | server/src/core/subscriptions/subscriptionCascade.service.ts:26-58 | When an entitlement stands and until when, in the columns of the row and its source: exactly while the row, and a source it derives from, are active and unexpired; it ends with the earlier of the two. |
| Model.EarliestIsNoLater | server/src/core/subscriptions/subscriptionCascade.service.ts:53-58 | The earlier of two expiries, null meaning never, is one of them and after neither. |
| Cascade.OnActivated | server/src/core/subscriptions/subscriptionCascade.service.ts:61-102 | In any service order the loop equals one pointwise map on the store: the rows on the services drawing on the source mirror it. |
| Cascade.ActivationMirrors | server/src/core/subscriptions/subscriptionCascade.service.ts:61-102 | Afterwards the user has one active row mirroring the source on every enabled REFERENCED service drawing on it; no other row moved, none vanished, the forest stands. |
| Cascade.ActivationDecides | server/src/core/subscriptions/subscriptionCascade.service.ts:61-102 | Exactly the user's rows on enabled REFERENCED services of the source become mirrors, column by column; a row there keeps its id, auto-renewal and start. |
| Cascade.OnReferencedServiceCreated | server/src/core/subscriptions/subscriptionCascade.service.ts:108-160 | Exactly the users with a live subscription on the source get a mirror on the new service, and exactly they are reported. |
| Cascade.OnDeactivated | server/src/core/subscriptions/subscriptionCascade.service.ts:163-178 | In any row order, exactly the derived rows take the status, and a cancellation stamps its time. |
| Cascade.OnReactivated | server/src/core/subscriptions/subscriptionCascade.service.ts:181-197 | In any row order, exactly the derived rows become active, clean, and clamped to the source. |
| Cascade.OnExpiryChanged | server/src/core/subscriptions/subscriptionCascade.service.ts:200-220 | In any row order, the conditional writes equal setting each derived expiry to the earlier of its own and the source's; every other row is untouched. |
| Cascade.CascadeDecides | server/src/core/subscriptions/subscriptionCascade.service.ts:163-220 | What each cascade leaves of any row, column by column: exactly those deriving from the source take the status, the earlier expiry, or the clean active state. |
| Cascade.ClampIsIdempotent | server/src/core/subscriptions/subscriptionCascade.service.ts:200-220 | Clamping again changes nothing, clamping never lengthens a row, and afterwards no derived row outlasts the source. |
| Cascade.MirrorKeepsForest | server/src/core/subscriptions/subscriptionCascade.service.ts:61-160 | Mirroring a source onto any rows of services that draw on it keeps the forest and touches nothing else. |
| Expiration.ProcessOne | server/src/api/services/subscriptionLifecycle.service.ts:111-184 | One turn: skip, renew and clamp, end and cascade, or fail, decided on the stale snapshot and written to the store as it is. |
| Expiration.ProcessSubscriptions | server/src/api/services/subscriptionLifecycle.service.ts:101-188 | The loop visits every row active at the start once, in some order, and equals folding the row turns over it; it reports success exactly when no such row without expiry, or past its expiry without auto-renewal, had its provider out of reach. |
| Expiration.RunTakesTurns | server/src/api/services/subscriptionLifecycle.service.ts:111-184 | For every order and all outages, a row active at the start that derives from no active row ends the run thus: not due, as it was; due and auto-renewing, active with its expiry thirty days later; due otherwise, expired without an error; without expiry, disabled with the missing expiry as its error; out of reach when it had to end, failed as a failed expiration with its time. |
| Expiration.TurnCascades | server/src/api/services/subscriptionLifecycle.service.ts:131-167 | In one turn a row derived from the visited one is clamped when that renews, becomes expired or disabled like it when that ends, and is left alone when that is not due or out of reach; every other row is left alone. |
| Expiration.RunTakesDerivedTurns | server/src/api/services/subscriptionLifecycle.service.ts:101-188 | For every order and all outages, a row derived from an active one ends the run with the status of whichever of the two ended last, its own turn or the cascade of its source; a source that is not due, renews or is out of reach does not count. |
| Expiration.RunLowersBacklog | server/src/api/services/subscriptionLifecycle.service.ts:101-188 | One run strictly lowers the worst backlog over active rows, for every order and every pattern of outages, although its own clamps pull derived rows back. |
| Expiration.CaughtUpRunWritesNothing | server/src/api/services/subscriptionLifecycle.service.ts:112-114 | With no row due a run leaves the store as it is. |
| Expiration.CatchingUpTerminates | server/src/api/services/subscriptionLifecycle.service.ts:101-188 | At a fixed clock, as many runs as the worst backlog leave nothing due, and every later run changes nothing. |
| Expiration.StaleSnapshotIsSafe | server/src/api/services/subscriptionLifecycle.service.ts:101-188 | A source active at the start that ends a run expired or disabled has no active derived row, for any order and any outages. |
| Expiration.DerivedOutlivesSourceIff | server/src/api/services/subscriptionLifecycle.service.ts:101-188 | For any order and outages: under a source active at the start, a derived row is active and the source no longer is exactly when the source had to end, its provider was out of reach, and the derived row was active and had not to end itself; the source has then failed. |
| Expiration.FailedSourceKeepsDerivedActive | server/src/api/services/subscriptionLifecycle.service.ts:169-184 | A concrete run: the linked account of a due source cannot be disabled, and the row derived from it stays active. |
| Expiration.RunKeepsDrift | server/src/api/services/subscriptionLifecycle.service.ts:116-137 | With all expiries set: if no derived row outlives its active source by more than a period, one run keeps it so, whichever of the two is visited first. |
| Expiration.RunsKeepDrift | server/src/api/services/subscriptionLifecycle.service.ts:116-137 | The drift bound survives any number of runs at any times. |
| Subscriptions.FailedRowsAreRecoverable | server/src/api/services/subscriptions.service.ts:981-989 | At rest a failed row is accepted by exactly one of subscribing again and the admin's retry. |
| Subscriptions.Subscribe | server/src/api/services/subscriptions.service.ts:82-171 | The steps (provision, upsert the account, activate, cascade, or mark failed) equal the outcome function in all their success and error paths. |
| Subscriptions.SubscribeDecides | server/src/api/services/subscriptions.service.ts:82-171 | The exact answer. Refused without effect, in this order: no such user, no such service, one disabled or REFERENCED, or MANAGED without credentials (bad request); not allowed by policy nor, without one, by default (forbidden); a row other than a cancelled, expired or failed-provisioning one (conflict). A provisioner that breaks and an external id held elsewhere leave only the failed attempt. Everything else succeeds. |
| Subscriptions.SubscribeWrites | server/src/api/services/subscriptions.service.ts:104-171 | What success writes, column by column: the row active for one period, the account, and from a MANAGED service a mirror on every enabled REFERENCED service drawing on it; nothing else. |
| Subscriptions.ExpiredCanReturn | server/src/api/services/subscriptionLifecycle.service.ts:139-154 | Whatever the order and the outages elsewhere, a row that a run has expired can be subscribed again by whoever may subscribe. |
| Subscriptions.SubscribeKeepsInv | server/src/api/services/subscriptions.service.ts:82-171 | Succeeding or throwing, subscribing keeps the forest and leaves every row at rest. |
| Subscriptions.SubscribeGrants | server/src/api/services/subscriptions.service.ts:82-171 | Success gives one full period, on the service and, effectively, on everything drawing on it; failure changes no other row and no account and can be tried again. |
| Subscriptions.UpsertExternalAccount | server/src/api/services/subscriptions.service.ts:318-335 | The provisioned account, with or without an external id, replaces the first linked one or is added; an external id held elsewhere is a conflict that changes nothing. |
| Changes.Delete | server/src/api/services/subscriptions.service.ts:337-398 | Authorisation, deprovisioning, deletion or failure equal the outcome function. |
| Changes.DeleteDecides | server/src/api/services/subscriptions.service.ts:337-398 | The exact answer: a missing row, a caller who is neither the owner nor an admin, a REFERENCED service and a subscription that is not running are refused without effect; if the external side went through the row goes with its accounts and what derives from it and nothing else; otherwise the row alone fails as a failed cancellation. |
| Changes.DeleteKeepsInv | server/src/api/services/subscriptions.service.ts:337-398 | Cancelling keeps the forest and leaves every row at rest, also when the external side fails. |
| Changes.DeleteUndoesSubscribe | server/src/api/services/subscriptions.service.ts:377-398 | Cancelling right after a first subscription restores all subscriptions and accounts exactly, derived ones included. |
| Changes.SetDisabledStatus | server/src/api/services/subscriptions.service.ts:647-739 | Disabling and enabling with its per-account loop equals the outcome function, vanished accounts and failures included. |
| Changes.SetStatusRefuses | server/src/api/services/subscriptions.service.ts:647-674 | The exact answer: a missing user, service or row, disabling what is not running and enabling what is not disabled are refused without effect; the rest depends on whether the provider was reached. |
| Changes.SetStatusWrites | server/src/api/services/subscriptions.service.ts:676-722 | What going through writes: the row and every row derived from it disabled, or active, derived ones then clean and no later than the source; no other row moves, and of the accounts exactly the context accounts found missing go, when enabling. |
| Changes.SetStatusFails | server/src/api/services/subscriptions.service.ts:724-739 | Not going through fails the row alone, as a failed cancellation; enabling has dropped the missing accounts by then. |
| Changes.SetStatusKeepsInv | server/src/api/services/subscriptions.service.ts:647-739 | Disabling and enabling keep the forest and leave every row at rest on every path. |
| Changes.EnableUndoesDisable | server/src/api/services/subscriptions.service.ts:647-739 | Enabling takes back a disabling exactly when the row and its derived rows were active, clean and within the source's expiry. |
| Changes.Renew | server/src/api/services/subscriptions.service.ts:602-632 | Renewing adds a period to the later of now and the expiry and then clamps what derives from it. |
| Changes.RenewDecides | server/src/api/services/subscriptions.service.ts:602-632 | The exact answer: a missing row is refused; otherwise the row ends thirty days after the later of now and its expiry, without an error, derived rows end no later, and nothing else moves. |
| Changes.RenewKeepsInv | server/src/api/services/subscriptions.service.ts:602-632 | Renewing any row, derived ones included, keeps the forest. |
| Changes.RenewalDoesNotSpread | server/src/core/subscriptions/subscriptionCascade.service.ts:200-220 | Renewing a source never lengthens a derived row; one within its source's expiry keeps row and effective expiry exactly. |
| Changes.SetAutoRenew | server/src/api/services/subscriptions.service.ts:452-487 | The owner switches auto-renewal on a service with accounts of its own; anyone else, a missing row and a REFERENCED service are refused without effect. |
| Changes.SetAutoRenewDecides | server/src/api/services/subscriptions.service.ts:452-487 | The exact answer, refusals included; only the one flag is written. |
| Changes.Patch | server/src/api/services/subscriptions.service.ts:422-449 | An admin edit with no field is refused; otherwise the status goes first and auto-renewal is written only if that succeeded. |
| Changes.PatchDecides | server/src/api/services/subscriptions.service.ts:422-449 | The exact answer in terms of the status change, which goes first; auto-renewal is written only if that went through. |
| Changes.SettingsKeepInv | server/src/api/services/subscriptions.service.ts:422-487 | Both edits keep the forest and leave every row at rest on every path. |
| Changes.AddAccount | server/src/api/services/subscriptions.service.ts:178-270 | Adding an account equals its outcome function: guards, cap, provisioning failures and id clashes. |
| Changes.AddAccountDecides | server/src/api/services/subscriptions.service.ts:178-270 | The exact answer: each guard has its condition and error, in order, and so have the provisioning failures and a held external id, all without effect; otherwise there is exactly one account more. |
| Changes.AccountsStayWithinCap | server/src/api/services/subscriptions.service.ts:259-275 | An added account stays within the cap in force, and deleting it again restores the accounts. |
| Changes.DeleteAccount | server/src/api/services/subscriptions.service.ts:533-600 | Deleting an account equals its outcome function. |
| Changes.DeleteAccountDecides | server/src/api/services/subscriptions.service.ts:533-600 | The exact answer: the guards in order, the last account refused; otherwise exactly that account goes. |
| Changes.LastAccountStays | server/src/api/services/subscriptions.service.ts:533-600 | A subscription with accounts never loses its last one by deleting accounts. |
| Changes.AccountChangesKeepInv | server/src/api/services/subscriptions.service.ts:178-270 | Adding and deleting accounts keep external ids unique and accounts in agreement with their subscriptions. |
| Changes.ActivateFromPolicy | server/src/api/services/subscriptions.service.ts:910-943 | An ALLOW policy revives exactly the row of a REFERENCED service whose source is strictly active, as a mirror of it. |
| Changes.ActivateFromPolicyDecides | server/src/api/services/subscriptions.service.ts:910-943 | Exactly a REFERENCED service whose source the user holds active and unexpired has the user's row written, as a mirror of the source; otherwise nothing changes. |
| Changes.ActivateFromPolicyKeepsInv | server/src/api/services/subscriptions.service.ts:910-943 | Granting access by policy keeps the forest. |
| Lifecycle.DisableAllForUser | server/src/api/services/subscriptionLifecycle.service.ts:54-92 | Whatever the external side does, the loop disables every active row of the user and nothing else. |
| Lifecycle.DisableAllDecides | server/src/api/services/subscriptionLifecycle.service.ts:54-92 | Exactly the active rows of a known user become disabled and lose auto-renewal; every other column and row is as it was. |
| Lifecycle.DisableAllKeepsInv | server/src/api/services/subscriptionLifecycle.service.ts:54-92 | Afterwards the user has no standing entitlement anywhere; other users are untouched and the forest stands. |
| Lifecycle.RetryFailedOperation | server/src/api/services/subscriptionLifecycle.service.ts:434-548 | Retrying a cancellation, an expiration or a synchronisation equals the outcome function on every answer of the external side. |
| Lifecycle.RetryDecides | server/src/api/services/subscriptionLifecycle.service.ts:434-548 | The exact answer: only an admin retries, only a failed row, and no failed provisioning; out of reach nothing changes; a cancellation removes the row with its tree, an expiration ends it, a synchronisation cancels it if none of its accounts is there and revives it otherwise. |
| Lifecycle.RetryKeepsInv | server/src/api/services/subscriptionLifecycle.service.ts:434-548 | Retrying keeps the forest and leaves every row at rest. |
| Lifecycle.RetryResolves | server/src/api/services/subscriptionLifecycle.service.ts:434-548 | A retry either takes the row out of failed or changes nothing at all. |
| Lifecycle.RetriedExpirationDoesNotCascade | server/src/api/services/subscriptionLifecycle.service.ts:434-548 | Retrying a failed expiration expires the source and touches nothing else; derived rows keep their status, and their effective entitlement is inactive before and after. |
| Lifecycle.RetriedStatusChangeCancels | server/src/api/services/subscriptions.service.ts:724-739 | A failed disabling or enabling that an admin retries with the provider in reach deletes the subscription with its accounts and everything derived from it, and touches no other row. |
| Services.CreateService | server/src/api/services/serviceManagement.service.ts:97-154 | Creating equals its outcome function: MANAGED and unsuitable sources refused, live subscribers of the source mirrored. |
| Services.CreateServiceDecides | server/src/api/services/serviceManagement.service.ts:97-183 | The exact answer: the refusals without effect; otherwise the service is there, and exactly the users with a live subscription on its source have a mirror of it. |
| Services.CreateServiceKeepsInv | server/src/api/services/serviceManagement.service.ts:97-183 | A new service, with the mirrors it brings, keeps the forest: only a MANAGED source is accepted. |
| Services.DeleteService | server/src/api/services/serviceManagement.service.ts:278-311 | Deleting equals its outcome function: MANAGED refused, rows of a REFERENCED service cleared first, foreign keys respected. |
| Services.DeleteServiceDecides | server/src/api/services/serviceManagement.service.ts:278-311 | The exact answer: unknown and MANAGED services are refused without effect; the subscriptions and accounts of a REFERENCED one go in any case; service and policies go unless an invite or a subscription is left. |
| Services.DeleteServiceKeepsInv | server/src/api/services/serviceManagement.service.ts:278-311 | Deleting a service keeps the forest, also when it stops half way on a foreign key. |
| Services.LinkAccount | server/src/api/services/inviteAccountLinking.service.ts:42-124 | Linking an invited account equals its outcome function: the provider is looked up by the service's name, and already linked or unknown accounts change nothing. |
| Services.LinkAccountDecides | server/src/api/services/inviteAccountLinking.service.ts:42-124 | The exact answer: no provider of that name, no such account, or one linked already changes nothing; a subscription in the way is a conflict; otherwise there is one active auto-renewing subscription with this account, and its mirrors. |
| Services.LinkKeepsForest | server/src/api/services/inviteAccountLinking.service.ts:42-124 | Linking keeps the forest exactly when it does not reach a REFERENCED service. |
| Services.InviteCanReachReferenced | server/src/api/services/inviteAccountLinking.service.ts:42-124 | A concrete store with unique names and slugs in which the invite of a provider resolves to a REFERENCED service of that name and linking breaks the forest. |
| Services.OwnNamesKeepInvitesOff | server/src/api/services/inviteAccountLinking.service.ts:42-124 | Where every provider's name is borne by a service that is not REFERENCED, an invite never links on a REFERENCED one and the forest stands, as names are unique. |
| Services.DeleteUserKeepsInv | server/prisma/models/entities.prisma:106-142 | Deleting a user takes their rows and accounts and leaves a forest. |
| Services.HardDeleteUser | server/src/api/services/user.service.ts:157-162 | Deleting a user removes the user's rows, the accounts of those rows and the user's policies, and nothing else. |
| Services.DeleteUserDecides | server/src/api/services/user.service.ts:157-162 | Exactly what names the user goes: rows, accounts and policies; derived rows need no exception, being of the same user. |
| Services.UpsertPolicy | server/src/data/repositories/userServicePolicy.repository.ts:50-74 | A policy is written exactly when its user and service exist. |
| Services.DeletePolicy | server/src/data/repositories/userServicePolicy.repository.ts:76-88 | A policy is removed; a missing one is an error that changes nothing. |
| Services.SetPolicyDecides | server/src/data/repositories/userServicePolicy.repository.ts:50-88 | Writing and removing a policy, with the exact condition of each refusal; nothing else moves. |
| Services.SetServiceEnabled | server/src/api/services/serviceManagement.service.ts:185-205 | The flag of one service is set and nothing else changes; an unknown service is an error. |
| History.StepKeepsInv | server/src/api/services/subscriptionLifecycle.service.ts:54-548 | Every operation, successful or throwing, keeps the forest and leaves no row in a transient status. |
| History.ReachableStoresAreForests | server/src/core/subscriptions/subscriptionCascade.service.ts:61-160 | Every store reachable by any sequence of operations from a store without subscriptions is a depth-one derivation forest with every row at rest; only linking an invited account to a REFERENCED service is excepted. |
| History.ReachableEntitlementsHaveSources | server/src/core/subscriptions/subscriptionCascade.service.ts:26-58 | In every reachable store an active effective entitlement on a REFERENCED service rests on a live subscription of the same user on its MANAGED source and ends no later; every failed row is recoverable in exactly one way. |
| Reconciliation.SyncExternalToLocal | server/src/api/services/subscriptionLifecycle.service.ts:328-400 | Pass one succeeds exactly when no call it makes throws; a call that answers false leaves its own account alone and the pass goes on, so the upstream is as wanted exactly when no such call would have changed something. A throw ends it between before and after. |
| Reconciliation.CorrectEach | server/src/api/services/subscriptionLifecycle.service.ts:350-400 | The loop over the external accounts, in any order, corrects exactly those it reached whose call, if one was needed, went through. |
| Reconciliation.RefusalsCount | server/src/api/services/subscriptionLifecycle.service.ts:350-400 | Calls that answer false leave the run short of its goal exactly when one of them would have changed something. |
| Reconciliation.SyncLocalToExternal | server/src/api/services/subscriptionLifecycle.service.ts:402-428 | Pass two fails exactly the active subscriptions that miss an account. |
| Reconciliation.SyncIntegrationAccounts | server/src/api/services/subscriptionLifecycle.service.ts:212-238 | Over all services in any order. On every enabled MANAGED service with a provider whose listing and calls go through, the listed accounts become active or are removed as the links say, but for those whose call answered false, and exactly the active rows missing an account fail as failed synchronisations; a service that is disabled, not MANAGED, without a provider, silent or broken is exactly as before, upstream and rows. Success is reported exactly when no listing and no call threw, and the run equals the function Sync where nothing was out of reach. |
| Reconciliation.SyncAligns | server/src/api/services/subscriptionLifecycle.service.ts:281-428 | After a run every external account that is neither an admin's nor a deleted one still listed is linked, linked ones mirror the status loaded for them, and every active subscription has all its accounts. |
| Reconciliation.SecondRunWritesNothing | server/src/api/services/subscriptionLifecycle.service.ts:402-428 | The second run writes no row. |
| Reconciliation.TwoRunsConverge | server/src/api/services/subscriptionLifecycle.service.ts:212-238 | After two runs a third changes nothing on either side, whatever the two began with; it still calls exactly when a provider goes on listing accounts it deleted. |
| Reconciliation.OneRunConvergesUnlessTorn | server/src/api/services/subscriptionLifecycle.service.ts:402-428 | One run leaves nothing to change exactly when no active subscription lost one account while another survived. |
| Reconciliation.SettledRunChangesNothing | server/src/api/services/subscriptionLifecycle.service.ts:212-238 | A run with nothing to mark and no call that changes anything leaves both sides as they are. |
| Reconciliation.QuietIffNoGhosts | server/src/core/integrations/immich/immich.integration.ts:219-276 | A settled run makes no call at all exactly when no provider lists accounts it deleted. |
| Reconciliation.NothingLinkedNothingChanged | server/src/api/services/subscriptionLifecycle.service.ts:339-348 | With no linked record on a service nothing changes on either side, however many accounts it has. |
| StaleAccounts.SweepService | server/src/api/services/subscriptionLifecycle.service.ts:254-274 | The sweep of a service fails exactly when a subscription has two vanished accounts; otherwise exactly the subscriptions with a vanished account go. |
| StaleAccounts.CleanupStaleLocalAccounts | server/src/api/services/subscriptionLifecycle.service.ts:241-279 | On every enabled MANAGED service that could be listed exactly the subscriptions with a vanished account go, or some of them where one has two; elsewhere no subscription goes but with the one it derives from, and whatever is left is as it was. Success is reported exactly when no listing throws and no subscription has two vanished accounts. |
| StaleAccounts.RemoveAllKeepsInv | server/src/api/services/subscriptionLifecycle.service.ts:241-279 | Whatever set of rows a sweep got to delete, the store is still a forest. |
| StaleAccounts.SweepLosesNoEntitlement | server/src/api/services/subscriptionLifecycle.service.ts:254-274 | A sweep takes no standing entitlement away and leaves all others exactly as they were. |
| Access.ResolveAccess | server/src/api/services/serviceAccess.service.ts:35-51 | The batch answers exactly for the listed services and agrees with the single lookup on each; of contradicting mentions the last one counts. |
| Access.EffectsOf | server/src/api/services/serviceAccess.service.ts:36-37 | The map built from one query holds exactly the policies a lookup by user and service would find. |
| Access.PolicyDecides | server/src/api/services/serviceAccess.service.ts:19-23 | A user may subscribe exactly when the policy allows it, or there is none and the default does. |
| Listings.HydrateSubscriptionDetails | server/src/api/services/subscriptions.service.ts:853-899 | For any list, in order, each entry has the owner, service, accounts and cap that individual lookups give. |
| Listings.DetailDecides | server/src/api/services/subscriptions.service.ts:881-899 | What an entry says, in the columns of the store, missing users, services and policies included. |
| Listings.MapPolicies | server/src/api/services/subscriptions.service.ts:867-878 | The string-keyed policy map answers like the policy table for every listed user. |
| CompositeKey.CompositeIsInjective | server/src/api/services/forwardAuth.service.ts:49 | Two users and two services share a key only if they are equal, whatever characters the user ids have. |
| CompositeKey.PrefixIsExact | server/src/api/services/forwardAuth.service.ts:84-91 | The prefix test recognises exactly the keys of users whose id, with its colon, the tested id and its colon begin; with colon-free ids, of one user. |
| ForwardAuth.ForwardAuthService.IsAuthorized | server/src/api/services/forwardAuth.service.ts:48-59 | An answer is a cache entry less than five minutes old, or else true exactly when the policy, or without one the default, allows and the user's row, and a source it derives from, are active and unexpired; it is then cached with its time. |
| ForwardAuth.ForwardAuthService.HandleInvalidation | server/src/api/services/forwardAuth.service.ts:82-94 | The deletion loop removes exactly the entries with the user's prefix. |
| ForwardAuth.InvalidationIsExact | server/src/api/services/forwardAuth.service.ts:82-94 | An event drops every entry of its user, and of others only where an id begins with that id and a colon, which no UUID does. |
| ForwardAuth.CacheRefinesEvaluation | server/src/api/services/forwardAuth.service.ts:48-80 | Every answer is what evaluation gave at an earlier question about the same user and service, less than five minutes ago, with no event about the user since. |
| ForwardAuth.AnswerDecides | server/src/api/services/forwardAuth.service.ts:48-80 | Over any run of questions and events: an answer is true exactly when, at some question about the same user and service less than five minutes before and with no event about the user since, policy, row and source let the user through. |
| ForwardAuth.AllowedMeansLiveSource | server/src/api/services/forwardAuth.service.ts:61-80 | Whoever is let through to a REFERENCED service had a live subscription on its MANAGED source less than five minutes ago. |
| ForwardAuth.StalenessIsBounded | server/src/api/services/forwardAuth.service.ts:48-59 | With evaluation and storing as separate steps, an answer is at most five minutes plus the evaluation time old, and no event about its user came after it was stored. |
| ForwardAuth.MissedIffDuringEvaluation | server/src/api/services/forwardAuth.service.ts:48-59 | For every served answer: an event about its user since it was taken went unheeded exactly when it fell between evaluation and storing; so where changes are announced, a wrong answer is served only then. |
| ForwardAuth.EventDuringEvaluationIsMissed | server/src/api/services/forwardAuth.service.ts:48-59 | A concrete interleaving: the event falls between evaluation and storing, and the user is let through although evaluation now refuses. |
| Png.ValidatePng | server/src/lib/imageValidation.ts:126-145 | The loop accepts exactly the grammar: signature, complete chunks, no animation chunk, a first IEND that is empty and ends the file; all reads are in bounds and each turn consumes at least 12 bytes. |
| Png.DecodingIsUnique | server/src/lib/imageValidation.ts:130-141 | The chunk list of a file is determined by its bytes. |
| Png.SevenBitTypesReadExactly | server/src/lib/imageValidation.ts:132 | On seven-bit chunk types the check is the specification's own. |
| Png.AcceptedIsStrictIffIend | server/src/lib/imageValidation.ts:130-141 | An accepted chunk list meets the specification exactly when its last type is IEND byte for byte. |
| Png.StrictIsAcceptedIffNotMisread | server/src/lib/imageValidation.ts:130-141 | A list that meets the specification is accepted exactly when no chunk reads as an animation chunk and none before the last as IEND. |
| Png.CheckMeetsSpecification | server/src/lib/imageValidation.ts:126-145 | The same two equivalences for files, whose chunk list is unique. |
| Png.TopBitIsIgnored | server/src/lib/imageValidation.ts:132 | A concrete accepted file that no chunk list of the specification produces: it has no IEND chunk. |
| Svg.ChainIsPerCharacter | server/src/lib/imageValidation.ts:8-9 | The four chained replacements escape each character on its own. |
| Svg.UnescapeUndoesEscape | server/src/lib/imageValidation.ts:8-9 | A reader's unescaping is a left inverse of the escaping. |
| Svg.ValidateSvg | server/src/lib/imageValidation.ts:28-107 | The handlers accept exactly the files within the size limit whose events are all approved, values, lengths and view boxes included, with one svg root that closes, within the limits; the output is the print of the events. |
| SvgRules.AcceptedDecides | server/src/lib/imageValidation.ts:28-107 | The check accepts exactly the approved streams, where approval is stated without the check's own functions: the depth of every tag from the tags before it, the listed names, and no event that is not a tag or text. |
| SvgRules.ValueDecides | server/src/lib/imageValidation.ts:22-66 | An attribute value of admitted length is accepted exactly when: an `href` is a fragment; a value that says `url(`, in any case and with any spaces, is one `url(#...)`, and any other is made of harmless characters; a width or height is a positive length and a view box four numbers with positive extent, within the limits. |
| Svg.AcceptedReadsBack | server/src/lib/imageValidation.ts:22-107 | A plain reader recovers from the output the approved events, adjacent text merged: listed names and values the check accepts only, one svg root, balanced, within the element and depth limits. |
| Svg.MergedReadsBack | server/src/lib/imageValidation.ts:81-107 | Reading undoes printing for every list of plain tokens without adjacent text. |
| Svg.ConfiguredNamesArePlain | server/src/api/services/config.service.ts:32-46 | The configured element and attribute names can be printed bare, so the read-back holds as shipped. |
| ConfigMerge.DeepMerge | server/src/data/repositories/systemMetadata.repository.ts:100-126 | The recursive loop over keys, in any order, equals the merge function, throwing included. |
| ConfigMerge.StoredValuesWin | server/src/data/repositories/systemMetadata.repository.ts:100-126 | At every path a stored value that is neither null nor an object is what the merge has there. |
| ConfigMerge.DefaultsFillGaps | server/src/data/repositories/systemMetadata.repository.ts:100-126 | At every path nothing stored covers, the merge has the default. |
| ConfigMerge.MergeInventsNothing | server/src/data/repositories/systemMetadata.repository.ts:100-126 | Every leaf of a merge is the stored one or a default at the same path: one that nothing stored covers, or a null default, which also shows under a stored object of nulls. |
| ConfigMerge.MergeThrowsIffClash | server/src/data/repositories/systemMetadata.repository.ts:110-118 | Merging throws exactly when some default is null where a non-empty object is stored, so never with null-free defaults. |
| ConfigMerge.MergeIsIdempotent | server/src/data/repositories/systemMetadata.repository.ts:100-126 | Whenever merging succeeds, merging its result again changes nothing. |
| ConfigMerge.SystemMetadata.SyncDefaults | server/src/data/repositories/systemMetadata.repository.ts:69-98 | No reading of any setting changes by it, it reports exactly the missing keys, and afterwards none is missing. |
| ConfigMerge.NewKeysDecide | server/src/data/repositories/systemMetadata.repository.ts:69-98 | The keys that are added are exactly those of the defaults that the stored row lacks, and there are none when it lacks none. |
| ConfigMerge.ReadDecides | server/src/data/repositories/systemMetadata.repository.ts:17-28 | A reading is the default without a stored row; otherwise it fails exactly on a clash, has the stored leaf wherever there is one, and the default wherever nothing is stored. |
| ConfigMerge.UpdateTask | server/src/api/services/scheduler.service.ts:153-178 | As read afterwards exactly one task changed, in exactly the patched columns, and no other setting did. |
| ConfigMerge.PatchedDecides | server/src/api/services/scheduler.service.ts:153-178 | A patched task has the columns of the patch, and else those it had. |
| Invites.InviteService.ValidateToken | server/src/api/services/invite.service.ts:99-141 | The refusals in their order, and a wrong recipient counted, the third one revoking. |
| Invites.ValidateDecides | server/src/api/services/invite.service.ts:99-141 | The exact answer and effect of a validation: each refusal with its condition; a wrong recipient is one more failed attempt, and the third revokes. |
| Invites.InviteService.CreateToken | server/src/api/services/invite.service.ts:65-97 | An existing account refuses before anything is revoked; otherwise the newest pending invite for the email is superseded. |
| Invites.CreateDecides | server/src/api/services/invite.service.ts:65-97 | What a creation leaves of every invite: exactly the newest pending one for the email is revoked as superseded, and a fresh pending one is there; a taken email changes nothing. |
| Invites.InviteService.RevokeToken | server/src/api/services/invite.service.ts:143-163 | Only a pending invite is revoked; expired and revoked ones are returned as they are. |
| Invites.InviteService.UpdateInvite | server/src/api/services/invite.service.ts:165-203 | Only unused, unrevoked invites are edited, expired ones included. |
| Invites.InviteService.ClaimRow | server/src/data/repositories/invite.repository.ts:164-188 | The conditional update: it changes one row and only its user and time, or none, or the unique index on the user refuses it. |
| Invites.InviteService.ClaimToken | server/src/api/services/invite.service.ts:209-219 | A claim succeeds exactly when the invite is pending and the user has none; a used, revoked, expired or missing invite is refused first, and a refusal changes nothing. |
| Invites.InviteService.FindActivePendingByEmail | server/src/data/repositories/invite.repository.ts:97-116 | The search finds the newest pending invite for the email if there is one. |
| Invites.InviteService.DeleteInvite | server/src/api/services/invite.service.ts:221-230 | Exactly the named invite goes; an unknown one is refused. |
| Invites.ChangesDecide | server/src/api/services/invite.service.ts:143-230 | What revoking, editing, claiming, deleting and losing the user leave of every invite, column by column. |
| Invites.RunsAreSound | server/src/api/services/invite.service.ts:99-219 | Over every run of requests: used and revoked never coexist, every unrevoked invite has fewer than three failed attempts, and no user claimed two. |
| Invites.TerminalForever | server/src/api/services/invite.service.ts:143-219 | A used or revoked invite never changes again in a run, but for losing a deleted user's name or being deleted. |
| Invites.OnePerEmailKeptIffNoClash | server/src/api/services/invite.service.ts:165-203 | A request keeps at most one pending invite per email exactly when it is no edit that clashes. |
| Invites.OnePerEmailOverRuns | server/src/api/services/invite.service.ts:240-253 | With requests one at a time and without clashing edits there is at most one pending invite per email after every request. |
| Invites.EditBreaksOnePerEmail | server/src/api/services/invite.service.ts:165-203 | A concrete run in which reviving an expired invite makes two pending ones for an email. |
| Invites.ValidatedMeansClaimable | server/src/data/repositories/invite.repository.ts:164-188 | What validates can be claimed at the same instant, except in the very millisecond of expiry. |
| Issuing.TwinsIffOvertakenOrEdited | server/src/api/services/invite.service.ts:65-97 | With searching, superseding and creating as separate steps: an email comes to have two pending invites exactly when a request issues one while another is pending that was not when it searched, or an edit clashes. |
| Issuing.CreationIsOneRequest | server/src/api/services/invite.service.ts:65-97 | Uninterrupted, searching, superseding and issuing are the request that creates. |
| Issuing.TwoRequestsAtOnce | server/src/api/services/invite.service.ts:65-97 | A concrete interleaving of two requests for one email, without any edit, that leaves two pending invites. |
| SignUps.StepsOnlyClose | server/src/data/repositories/invite.repository.ts:164-223 | Of all steps of sign-ups and administrators only issuing and editing can open an invite. |
| SignUps.KeysStayUnique | server/prisma/models/entities.prisma:1-48 | In every interleaving of sign-ups and sign-ins an email has one account, an account one profile with each provider, and every profile belongs to an account that exists. |
| SignUps.ValidationIsOneRequest | server/src/api/services/invite.service.ts:99-141 | Uninterrupted, the statements of a validation are the request that validates. |
| SignUps.DecidedThenWritten | server/src/api/services/invite.service.ts:143-203 | Uninterrupted, deciding on a change and writing it changes the invite exactly if the decision stands. |
| SignUps.AtMostOneWinner | server/src/data/repositories/invite.repository.ts:164-188 | In every interleaving at most one sign-up wins an invite, and the invite bears its name and time. |
| SignUps.VictoryIsFinal | server/src/api/services/auth.service.ts:135-177 | A winner stays the winner: the recorded user never passes to somebody else. |
| SignUps.RevokedIsNeverClaimed | server/src/data/repositories/invite.repository.ts:164-223 | Once an invite is revoked no sign-up wins it any more. |
| SignUps.StrikesAreFollowedUp | server/src/api/services/invite.service.ts:122-138 | In every interleaving an unrevoked invite with three failed attempts has a sign-up about to revoke it. |
| SignUps.MeetExactly | server/src/api/services/invite.service.ts:143-203 | Step by step: an invite comes to be both used and revoked exactly when it is used and a revocation that was decided on before is written. |
| SignUps.BothIffLateRevocation | server/src/data/repositories/invite.repository.ts:164-223 | Over whole interleavings: an invite ends both used and revoked exactly when some revocation was written after it was used. |
| SignUps.LateRevokerDecidedFirst | server/src/api/services/invite.service.ts:122-203 | Whoever writes such a revocation had decided on it before the claim: no check passes any more once the invite is used. |
| SignUps.UsedAndRevokedCanMeet | server/src/api/services/invite.service.ts:143-163 | A concrete race in which an invite ends both used and revoked. |
| SignUps.LinkFailsIffTaken | server/src/api/services/auth.service.ts:159-163 | In every interleaving, linking the profile leaves the account without an invite exactly when the profile belongs to an account already or the account has another one with that provider; no invite is touched. |
| SignUps.OpeningDecides | server/src/api/services/auth.service.ts:135-158 | An account is opened exactly when nobody has the email; otherwise the sign-up ends and no account is touched. |
| SignUps.ClaimFailsIffUnavailable | server/src/api/services/auth.service.ts:165 | In every interleaving, claiming for a linked account leaves it without an invite exactly when at that moment the invite is gone, used, revoked or expired. |
| SignUps.AccountWithoutInviteIff | server/src/api/services/auth.service.ts:153-165 | Over whole interleavings: a sign-up ends with an account and no invite exactly when its profile was taken at the linking or its invite was unavailable at the claim; its user never comes to have an invite. |
| SignUps.LoserKeepsAccount | server/src/api/services/auth.service.ts:153-165 | A concrete race after which the loser has an account but no invite. |
| SignUps.KnownProfileKeepsInvitePending | server/src/api/services/auth.service.ts:153-165 | A run without any race: somebody whose profile is linked under another email is invited again and ends with a second account while the invite stays pending; another attempt is refused. |
| SignUps.WinnerRefusedIffErased | server/src/data/repositories/invite.repository.ts:164-181 | A sign-up that claimed its invite is refused all the same exactly when the invite was deleted between the claim and the read that ends it. |
| ImageLibrary.ImageLibraryService.Exclusive | server/src/api/services/imageLibrary.service.ts:150-154 | A change is queued behind the one submitted before it. |
| ImageLibrary.ImageLibraryService.CheckBody | server/src/api/services/imageLibrary.service.ts:167-213 | The checks of an upload or removal, with the sum over the listing computed by a loop. |
| ImageLibrary.CheckDecides | server/src/api/services/imageLibrary.service.ts:167-213 | The exact verdict: an upload is valid and one image more fits 500 images and 104857600 bytes; a removed image is well named, there, not the logo and not in use; each refusal has its error. |
| ImageLibrary.ImageLibraryService.Measure | server/src/api/services/imageLibrary.service.ts:180-184 | The loop over the listing, in any order, gives the bytes of all images. |
| ImageLibrary.ImageLibraryService.WriteNew | server/src/api/services/imageLibrary.service.ts:91-113 | Publishing by a temporary file and a link succeeds exactly when nothing fails and the name is free, never changes an existing image, and can publish and still report an error. |
| ImageLibrary.ImageLibraryService.CommitBody | server/src/api/services/imageLibrary.service.ts:91-113 | The written steps of publishing and removing, with their failures, settle the job and change the directory as the transition function says. |
| ImageLibrary.CommitDecides | server/src/api/services/imageLibrary.service.ts:91-113 | What a commit leaves of every image, and its answer, for each way of failing. |
| ImageLibrary.OneAtATime | server/src/api/services/imageLibrary.service.ts:150-154 | While one body runs, all submitted before it are settled and all after it have not begun. |
| ImageLibrary.QueueNeverStalls | server/src/api/services/imageLibrary.service.ts:150-154 | Whatever was rejected, the first unsettled change can always go on. |
| ImageLibrary.LimitsHold | server/src/api/services/imageLibrary.service.ts:180-186 | In every interleaving the number of images and their bytes stay within the limits, or within what was there to begin with. |
| ImageLibrary.NeverOverwritten | server/src/api/services/imageLibrary.service.ts:91-113 | As long as a published name stays, so does its content. |
| ImageLibrary.RemovedWasUnused | server/src/api/services/imageLibrary.service.ts:199-213 | An image vanishes only by a removal whose check had found it unprotected and unused. |
| ImageLibrary.ProtectedImagesStay | server/src/api/services/imageLibrary.service.ts:203-206 | A protected image is there for good, unchanged. |
| ImageLibrary.InUseStays | server/src/api/services/imageLibrary.service.ts:199-213 | An image that stays in use from a moment at which no checked removal of it was pending survives every removal, unchanged. |
| ImageLibrary.PendingRemovalTakesIt | server/src/api/services/imageLibrary.service.ts:199-213 | The condition is exact: a pending checked removal can commit next and then takes the image, in use or not. |
| ImageLibrary.RemovedIffUnusedAtCheck | server/src/api/services/imageLibrary.service.ts:199-213 | An image in use when its removal commits goes exactly when it was unused at the check of that removal, and then some service took it into use in between. |
| ImageLibrary.UseAfterCheckIsMissed | server/src/api/services/imageLibrary.service.ts:199-213 | A concrete race: a service that starts using an image after the check does not save it. |
| Sessions.SessionService.EnforceLimitForUser | server/src/api/services/session.service.ts:97-115 | Just enough of the user's live sessions go, the oldest first, down to one below the limit; expired sessions and other users are untouched. |
| Sessions.EnforcingDecides | server/src/api/services/session.service.ts:97-115 | The exact number of live sessions left, and everything that is not a live session of the user as it was. |
| Sessions.SortByCreation | server/src/api/services/session.service.ts:102-104 | The sort is a permutation in order of creation. |
| Sessions.EvictionIsDetermined | server/src/api/services/session.service.ts:97-115 | With distinct creation times the limit leaves no choice about who is evicted. |
| Sessions.LoginKeepsLimit | server/src/api/services/session.service.ts:97-115 | After making room and adding the new session the user is within the limit, whatever was there before. |
| Sessions.ExcessIsBounded | server/src/api/services/session.service.ts:97-115 | Over all interleavings: live sessions and logins under way stay within one less than the limit plus the logins under way when room was last made plus what was raised since: logins that went on although making room failed, and sessions that a save brought back or prolonged. |
| Sessions.LimitHoldsWithoutOvertaking | server/src/api/services/session.service.ts:97-115 | If the last login to make room overtook no other of its user, the limit is exceeded at most by what was raised since, so it holds if nothing was. |
| Sessions.ExceedsIffOvertaken | server/src/api/services/session.service.ts:97-115 | The exact number once all have landed: the sessions left when room was last made, plus that login, those it overtook and what was raised since; with no place free, above the limit exactly when it overtook one or something was raised. |
| Sessions.RacingLoginsExceedLimit | server/src/api/services/session.service.ts:106-112 | From any table with one place free, a run of two logins that both make room first and end one over the limit. |
| Sessions.SavedSessionExceedsLimit | server/src/infrastructure/prismaSession.store.ts:51-90 | A run in which no login overtakes another, and saving the evicted session exceeds the limit. |
| Sessions.OwnersStay | server/src/infrastructure/prismaSession.store.ts:51-90 | Over any run, a session keeps its user and its time of creation for as long as it stays in the table, whatever is saved. |

## Left out

- Providers, Jellyfin and Immich: an external service is a map from account id to (active, admin), with a flag saying whether deleted accounts stay listed; its calls may answer `false` or throw, and then change nothing.
- Interleaving on the subscription store: operations on it are atomic here; interleavings are modelled for the forward-auth cache, invites, sign-ups, logins and the image library.
- Failures of the repositories themselves: a database error in the middle of an operation is not modelled, only the refusals its constraints cause.
- Columns that no branch reads: user names and emails, timestamps of creation and update, retry counts, URLs; names and slugs of services appear only where an invite is resolved. Error messages are constants. An account with an empty external id counts as one without.
- ForwardAuth.ForwardAuthService.IsAuthorized: does not model resolving the host name to a service; the caller passes the service. An evaluation is one instant.
- History.ReachableStoresAreForests: excepts linking an invited account to a REFERENCED service, where the code breaks the forest (`Services.LinkKeepsForest`).
- Events: which operations emit an invalidation, and that deleting a service emits them for a limited number of subscriptions only, is not modelled.
- Png.ValidatePng: does not model decoding the pixels afterwards, the size and file name checks before, nor checksums, which the code does not verify either.
- Svg.ValidateSvg: takes the events of the tokenizer as its input, and how the platform reads a number (`parseFloat`, `Number`) as a parameter; UTF-8 decoding is left out.
- Svg.AcceptedReadsBack: that closing tags match is a promise of the tokenizer, so balance is stated for streams in which they do.
- ConfigMerge.DeepMerge: does not model keys that objects inherit, such as `constructor`.
- ConfigMerge.UpdateTask: assumes the task as read has its three columns with their types, as the declared types say; cron expressions are judged by a parameter.
- ConfigMerge.SystemMetadata.SyncDefaults: does not model a stored row that is not an object; rows are only written as objects.
- Invites.InviteService.CreateToken: does not model the accounts an invite names, nor tokens and their hashes; a token stands for the invite it finds.
- SignUps.AtMostOneWinner: the existence check and the creation of an account are one step, because the unique email decides in either case; a sign-up that fails before its account for any other reason simply gives up.
- ImageLibrary.LimitsHold: does not model seeding, symbolic links and file modes; the directory is a map from name to bytes and publishing is an atomic create-if-absent.
- Sessions.SessionService.EnforceLimitForUser: reads the clock once; anonymous sessions are sessions of nobody.
- Services.LinkAccount: does not model reading the expiry setting; the number of days is a parameter.
- Username generation, the job registry of the scheduler, dashboards, logs and retention tasks, controllers, guards, DTO validation and the whole client: plumbing, or easy members.
