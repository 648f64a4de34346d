# Agent credentials, consent and presentations: a verified model

This project models the part of the HelixID server that decides what an agent may
do: how credentials are issued, delegated, renewed and revoked, how consent is
recorded, how a presentation is put together, and what a verifier makes of it. It
proves properties of that model in Dafny 4.11.

`dafny verify dfyconfig.toml` checks everything.

## How it is laid out

| files | part of the system |
|---|---|
| `Common`, `Ordering`, `Positional`, `Paging` | options and results, filters, sorting, digit lists, keyset paging |
| `Credentials` | credentials, presentations, errors, the composition rule |
| `Verifier`, `VerifierFormula`, `VerifierDecay` | `verifyVP` and what it computes |
| `VerifierMeaning`, `VerifierErrors` | what its verdicts and its errors mean, told without its own functions |
| `Delegation` | building delegations, the schema-level chain check, built chains |
| `StatusList`, `Scopes`, `ScopeText`, `VcStore` | bit lists, scope lists, keys and texts, the in-memory credential driver |
| `VcLifecycle`, `VcService` | each service call as a function from state to state, and the methods that do it |
| `VcInvariants`, `Reconciliation` | what every lifecycle step keeps, what storing a credential does to earlier ones |
| `AgentFlows`, `ServiceFlows` | signing presentations, delegating, consent grants |
| `Success` | that nothing after the checks of a call fails |
| `LifecycleTerms`, `Replacement`, `DelegationTerms`, `SigningTerms` | on which terms each call succeeds, what it fails with and what it leaves, read off the request, the rows, the keys and the clock alone |
| `Presentations`, `Acceptance` | what `signVP` puts into a presentation, and when the verifier accepts it |
| `Runs`, `Rows`, `Orphans`, `EndToEnd`, `CarefulRuns`, `Consents` | the same over whole runs, from what the store says |
| `Descent` | where the scopes of an accepted presentation come from |
| `Cache`, `CacheHits` | the two-layer cache, for one process and for several |
| `Processes`, `Readings`, `RevocationEffect` | several processes over one store: what a reading of the list says, and what revoking then does |
| `Base58` | the base58 loops, multibase keys, did:key |
| `Search`, `AgentListing` | LIKE search, the public listing and its pages |
| `Failures`, `DelegatorRevoked` | inputs and runs on which an expected property fails |

A method that changes state is proved equal to a function of the old state, and the
theorems are about those functions. Everything outside the system is an argument:
the clock (whole milliseconds), fresh ids, which DIDs resolve, which proofs verify,
and which status lists can be read. A signature is a function of what is signed and
verifies under the document of its own DID (`Delegation.Genuine`).

## Main results

1. **One formula.** The loops of `verifyVP` accept exactly the presentations whose
   envelope, agent credentials and grants each meet a stated condition, and compute
   exactly the scopes that some standing credential holds and some standing grant
   passes on. With unique ids the order of the entries does not matter. In plain terms:
   a scope is worth something only through a credential of which every ancestor is as its
   issuer signed it, in its window and unflagged, and where consent is shown only through
   a grant of which the same is true; and every rejection carries the error of the first
   thing wrong.
2. **Authority only decays.** The same presentation, later and with more revoked, is
   never worth more, although the two runs may drop different entries.
3. **Built chains verify; the depth budget is exact; scopes descend.** The verifier's
   walk looks at the depth of every link, the schema's at the leaf alone. With the
   issuer checks they accept the same chains, but for those whose first missing scope is
   empty; without those, every scope of an accepted presentation is held all the way up
   to a root in order.
4. **What is signed is accepted, exactly when it should be.** For any store whose rows
   say what their credentials say, as the rows of every run do, what `signVP` signs is
   accepted if and only if the chosen credentials and grants pass a condition that looks
   at each of them and at what becomes of it by itself; for stored ones that is what the
   store says, then or after any later calls. While everything stands by itself, the
   condition is that the credentials are in order and bound to no other service, and the
   grants fit their schema and name somebody on a chosen chain. Its worth is what the
   chosen chains and grants say. What an agent signs right after a consent carries exactly
   the scopes both held and granted.
5. **Each call has its terms.** Issuing, renewing, revoking, registering, delegating,
   consenting and signing succeed exactly on stated conditions over the request, the rows,
   the keys and the clock, fail with the error of the first one unmet, and make just what
   was asked for: a delegation hands down from the one row that covers it, a presentation
   carries all that may be shown and no more, and a stored credential leaves of the live
   ones of its parties and scopes itself and those with delegations to carry.
6. **Rows and bits agree** in every state any run reaches, renewal links lead to a
   last credential, and reconciliation never orphans a delegation.
7. **Revocation reaches every process, and nothing else does.** No reading by any process
   ever flags a credential that is not revoked, whatever is cached where; one that is reads
   so everywhere within the lifetime of the first cache layer, and then it and everything
   resting on it is worth nothing to a verifier; no privilege that some credential holds
   off it is lost. A cached value is found by every process for as long as it was set, the
   lifetimes allowing, and one that was deleted is gone from all within the first layer's.
8. **Base58 is a bijection** on everything but all-zero input, and a did:key is the one
   form of its key.
9. **Pages are the listing**, and the escaped LIKE search is plain substring search.

Seven properties one might expect are false of the code. Each has an input on which it
fails and the exact condition under which it holds:

- *An accepted delegation never widens scopes.* The verifier's subset check looks at
  the truth value of the first missing scope, so an empty scope ends it quietly: a
  chain from `["read"]` to `["", "admin"]` is accepted and `admin` granted
  (`Failures.EmptyScopeHidesEscalation`). An accepted chain nests if and only if no
  link's first missing scope is empty (`Delegation.WalkAgainstSchema`).
- *What signVP signs is accepted while everything in it stands by itself.* `signVP`
  carries every active agent credential of the holder and every grant it finds, and one
  that is not in order sinks the presentation. It fails for a registered credential
  bound to another service (`Failures.BoundCredentialIsRefused`), for one that `issueVC`
  issued with `delegatedFrom` and no chain (`Failures.ChainlessIsRefused`), and for a
  registered grant that names the user but does not fit the grant schema
  (`Failures.MalformedGrantIsRefused`). It holds if and only if every chosen credential
  is in order and bound to no other service, and every chosen grant fits its schema and
  names the holder or somebody on a chosen chain (`Acceptance.SignedVpAccepted`).
- *What signVP signs from active credentials stands.* It fails after a revocation by
  hand under an active delegation (`DelegatorRevoked.RevokedUnderDelegation`):
  `revokeVC` does not look at children, `signVP` does not look at ancestors, and the
  verifier does. Exactly when it is accepted all the same is
  `EndToEnd.PresentationsAcceptedIff`; revoking by hand orphans nothing if and only if
  nothing active hangs off the credential (`Orphans.RevokeOrphansIff`), and runs that
  keep to that are safe (`EndToEnd.PresentationsAreAccepted`).
- *Authority ends with the delegator's.* Renewing a delegation issues a root in the
  platform's name with the same scopes, so a revocation of the delegator's credential
  no longer reaches it (`DelegatorRevoked.RenewedBeforeRevocation`). A scope is lost with
  a status entry if and only if every standing credential that holds it rests on that
  entry (`RevocationEffect.AuthorityEndsIff`), and a renewed credential rests on its own
  alone (`RevocationEffect.RenewedRestsOnItself`).
- *A credential in order can be registered.* Before the first status list exists nothing
  can be revoked, so registering one that refreshes another stores it and then fails
  (`Failures.RefreshBeforeListFails`). It succeeds if and only if there is a list or each
  live credential it would replace has a live delegation (`Replacement.ExternalTerms`).
- *Base58 round trips* fail exactly on all-zero arrays and all-'1' strings
  (`Base58.Base58RoundTrips`, `Base58.Base58IsCanonical`).
- *Every driver finds the same agents.* SQLite folds ASCII case and the in-memory
  driver calls `toLowerCase`, so a capital and a small E with an acute accent meet in
  one and not in the other (`Search.AcuteLowerCases`). A name is found alike under
  every term that lower-casing treats as ASCII folding does if and only if it is such
  a name itself, and likewise for terms (`Search.NameSearchesAgreeIff`,
  `Search.TermSearchesAgreeIff`); every ASCII name and term is.

The comment at `src/core/vp-verifier.ts:411` says an unreadable status list rejects a
presentation. The code raises the revocation error for it, so the credential is
dropped like a revoked one; the model follows the code. One more consequence the
model makes visible: when a delegated credential is dropped, a grant to one of its
ancestors no longer names anybody on a presented chain, and the presentation fails as
a whole (`VerifierDecay.LaterRejections`).

## Model

| member | source | states |
|---|---|---|
| Verifier.VerifyDelegationChain | src/core/vp-verifier.ts:232-280 | the walk over a chain: every credential checked first, then the root, then link by link, with the first failure reported |
| Verifier.VerifyAgent | src/core/vp-verifier.ts:338-363 | one agent credential stands, is dropped (revoked or expired) or sinks the presentation |
| Verifier.VerifyAgents | src/core/vp-verifier.ts:327-378 | the loop over agent credentials gathers scopes, per-chain authority and each link once |
| Verifier.VerifyGrants | src/core/vp-verifier.ts:383-441 | the loop over grants unions what each standing one lets through, to the holder or down from an ancestor |
| Verifier.VerifyVP | src/core/vp-verifier.ts:282-455 | the whole verification, check by check in the order of the code |
| Verifier.CollectScopes | src/core/vp-verifier.ts:366 | the set of privilege scopes in first-seen order |
| Verifier.CollectLinks | src/core/vp-verifier.ts:371-376 | a link is added unless its credential is already there |
| Verifier.FirstMissing | src/core/vp-verifier.ts:113-119 | finds a child scope the parent lacks, and none exactly when all are held |
| VerifierFormula.AcceptanceIsFormula | src/core/vp-verifier.ts:282-455 | accepted if and only if the envelope is in order, no agent credential is fatal and one stands, every grant belongs and is not broken, and one stands if any came |
| VerifierFormula.ScopesAreFormula | src/core/vp-verifier.ts:327-441 | the privilege scopes are those some standing credential holds; the effective ones also need a standing grant naming them to the holder or to a DID on the chain of a standing credential that holds them |
| VerifierFormula.ResultIsFormula | src/core/vp-verifier.ts:327-441 | both of the above as one statement about the result |
| VerifierFormula.OrderIsIrrelevant | src/core/vp-verifier.ts:327-441 | with unique ids, shuffling the entries changes neither acceptance nor the two scope sets |
| VerifierFormula.ChainDidsAreReached | src/core/vp-verifier.ts:371-384 | grants are held against the subjects of those standing chain credentials that are the first with their id |
| VerifierFormula.UniqueIdsName | src/core/vp-verifier.ts:371-384 | with unique ids that loses no DID on any chain |
| VerifierMeaning.CredentialMeans | src/core/vp-verifier.ts:135-216 | a credential passes if and only if its issuer resolves, its proof verifies over its body, the clock is in its window, it is not self-issued unless allowed, and its status bit, if it names one, can be read and is 0; each error has its exact condition |
| VerifierMeaning.AgentMeans | src/core/vp-verifier.ts:327-363 | an agent credential counts if and only if it is about the holder and bound nowhere else and all its ancestors pass and hand down in order; it is passed over if and only if the first that does not pass is expired or flagged |
| VerifierMeaning.AcceptanceMeans | src/core/vp-verifier.ts:282-455 | accepted if and only if unexpired, for the expected service, signed by its holder and rightly composed, every agent credential counts or is passed over and one counts, every grant is in place and one holds if there are any |
| VerifierMeaning.VerdictMeans | src/core/vp-verifier.ts:327-455 | the holder, the id, both scope sets, the links shown once each in order, and the self-issue warning, each in plain terms |
| VerifierMeaning.NothingForged | src/core/vp-verifier.ts:135-146 | every privilege is held by a presented credential about the holder all of whose ancestors carry proofs that verify over what they say, in their windows and unflagged |
| VerifierMeaning.NoConsentForged | src/core/vp-verifier.ts:383-441 | with grants shown, every effective scope is named by one that the service issued and that is as signed, in its window and unflagged |
| VerifierMeaning.EnvelopeErrors | src/core/vp-verifier.ts:286-325 | which error an expired, misdirected, unresolvable, unsigned, miscomposed or consentless presentation meets |
| VerifierErrors.AgentSinks | src/core/vp-verifier.ts:327-363 | the first agent credential that neither counts nor is passed over sinks the presentation with the error of the first thing wrong with it, down to the link of its chain and the scope |
| VerifierErrors.LastAgentSinks | src/core/vp-verifier.ts:327-382 | where all were passed over, the error is the last one's |
| VerifierErrors.GrantSinks | src/core/vp-verifier.ts:383-441 | the first grant out of place sinks it with the error of the first thing wrong with that grant |
| VerifierErrors.LastGrantSinks | src/core/vp-verifier.ts:383-446 | where all grants lapsed, the error is the last one's |
| VerifierDecay.AuthorityOnlyDecays | src/core/vp-verifier.ts:282-455 | accepted early and late, the late scope sets are subsets of the early ones |
| VerifierDecay.LaterRejections | src/core/vp-verifier.ts:282-455 | a presentation once accepted can later fail only as expired, as revoked, or because a grant lost the chain it was given to |
| Delegation.ValidateChainIntegrity | src/core/schemas/vc.ts:129-174 | the schema's chain walk, with the depth looked at once at the leaf |
| Delegation.ChainAcceptedIff | src/core/vp-verifier.ts:232-280 | the verifier accepts a chain if and only if all its credentials stand, the root is at depth 0 and not self-issued, depths and parents follow on within the budget, each child is issued by its parent's subject and no first missing scope is a non-empty one |
| VerifierErrors.SchemaErrs | src/core/schemas/vc.ts:129-174 | the schema's walk reports nothing if and only if the chain starts at depth 0, each credential is joined to the one before and has no scope that one lacks, and the leaf is within the budget; else the first thing amiss |
| Delegation.WalkAgainstSchema | src/core/schemas/vc.ts:129-174 | for every chain: accepted with no escalation hidden behind an empty scope if and only if the schema check accepts it, all stand, each is issued by its parent's subject and the root is not self-issued; an accepted chain nests if and only if nothing is hidden |
| Delegation.SubsetCheckExactIff | src/core/vp-verifier.ts:113-119 | the subset check means inclusion for every parent if and only if the child names no empty scope |
| Failures.EmptyScopeHidesEscalation | src/core/vp-verifier.ts:113-119 | an accepted presentation that is granted a scope no ancestor of its credential holds |
| Descent.AcceptedScopesDescend | src/core/vp-verifier.ts:232-280 | every standing chain of an accepted presentation has a root in order and nests if and only if it hides nothing; if none hides anything, the privilege scopes are exactly those held all along some standing chain |
| Delegation.BuilderKeepsLinked | src/core/delegation.ts:59-104 | one more hop signed by the subject of a well-linked credential is well-linked and extends its chain |
| Delegation.WellLinkedAccepted | src/core/vp-verifier.ts:232-280 | a well-linked credential is accepted, with all its links, while all links stand |
| Delegation.BuiltChainVerifies | src/core/delegation.ts:59-104 | any run of hops from a depth-0 root not issued by its subject verifies while its links are current, and its depth is the number of hops |
| Delegation.BudgetIsExact | src/core/delegation.ts:74-80 | a run of hops can be built if and only if scopes shrink, nobody delegates to itself and the depth stays within the budget |
| Delegation.SourceMatchesBuilder | src/services/agent/agent.service.ts:449-469 | the source picked never trips the builder, none picked means none would do, and ambiguity means two would |
| StatusList.SetBit | src/core/status-list/index.ts:64-82 | writes one byte of the decoded buffer, or fails out of bounds |
| StatusList.FlippedBit | src/core/status-list/index.ts:64-82 | setting a bit sets that bit and no other |
| StatusList.GetBitIsBit | src/core/status-list/index.ts:87-99 | reading shifts out the bit counted from the left of its byte |
| StatusList.WriteThenRead | src/core/status-list/index.ts:64-107 | what was written is read back at its index and nothing else changed, length included |
| StatusList.Empty | src/core/status-list/index.ts:54-58 | a new list has room for the size asked for and every bit is 0 |
| Scopes.FindScopeProblem | src/core/schemas/privilegeScopes.ts:19-27 | no problem if and only if at most 50 scopes, each non-empty, free of separators and at most 255 long |
| Scopes.ParsedAreWords | src/core/schemas/privilegeScopes.ts:13-16 | parsing gives distinct non-empty scopes without separators |
| Scopes.ParseIsIdempotent | src/core/schemas/privilegeScopes.ts:13-16 | parsing a parsed list changes nothing |
| Scopes.ParseUndoesJoin | src/core/schemas/privilegeScopes.ts:13-16 | a duplicate-free list of scopes joined by spaces parses back to itself |
| ScopeText.ParsedAre | src/core/schemas/privilegeScopes.ts:13-16 | texts made of words with any white space and commas around and between them parse to those words, each where it is first seen |
| ScopeText.EveryTextIsLaidOut | src/core/schemas/privilegeScopes.ts:7-16 | every text is so made, so that parsing is described for all inputs |
| Scopes.NormalizedIsSorted | src/core/vc-lookup.ts:24-26 | normalised scopes are sorted and distinct |
| Scopes.KeyDecidesSetEquality | src/core/vc-lookup.ts:24-35 | for valid lists the keys are equal if and only if the lists are equal as sets |
| VcStore.VcDriver.CreateVc | src/repositories/drivers/vc.drivers.ts:615-640 | stores the row under its id, at the end when it is new |
| VcStore.VcDriver.CreateStatusList | src/repositories/drivers/vc.drivers.ts:702-711 | stores the list with its claims at 0 |
| VcStore.VcDriver.ClaimNextIndex | src/repositories/drivers/vc.drivers.ts:713-728 | returns the next index and moves it on |
| VcStore.VcDriver.RevokeVc | src/repositories/drivers/vc.drivers.ts:730-744 | writes the list and marks the row revoked |
| VcStore.VcDriver.MarkAsRenewed | src/repositories/drivers/vc.drivers.ts:746-756 | links the row to its successor |
| VcService.VcService.RevokeVC | src/services/vc/vc.service.ts:782-823 | the row is revoked and, if its entry is on the platform's list, its bit set and the cached list dropped; unknown and already revoked ids fail |
| VcService.VcService.Retire | src/services/vc/vc.service.ts:333-356 | revokes unless active delegations hang off the credential |
| VcService.VcService.RetireAll | src/services/vc/vc.service.ts:322-328 | one loop of the reconciliation, row by row with its two lists |
| VcService.VcService.ReconcileActive | src/services/vc/vc.service.ts:301-330 | same-scope siblings are chained and retired, the others retired when asked |
| VcService.VcService.RegisterSignedVC | src/services/vc/vc.service.ts:381-401 | stores a delegation with its own index if it has one, then reconciles |
| VcService.VcService.RegisterIssuedGrant | src/services/vc/vc.service.ts:896-940 | stores a grant with its index, then reconciles |
| VcService.VcService.RegisterExternalVC | src/services/vc/vc.service.ts:409-517 | idempotent by id; proof, a usable end date, expiry and subject are checked, in that order, before anything is stored |
| VcService.VcService.ClaimStatusListEntry | src/services/vc/vc.service.ts:871-894 | creates the list on first use and claims the next index, or reports it full |
| VcService.VcService.IssueVC | src/services/vc/vc.service.ts:519-688 | validates, claims an index, signs, stores and reconciles |
| VcService.VcService.RenewVC | src/services/vc/vc.service.ts:825-869 | issues a successor from the stored row and links the old row to it |
| VcService.VcService.GetStatusList | src/services/vc/vc.service.ts:960-973 | serves the cached list, else the stored one, caching it |
| LifecycleTerms.IssueTerms | src/services/vc/vc.service.ts:519-588 | issued if and only if the subject is known, an agent has a name and a list of scopes or a user an id and no scopes, there are at most 50 scopes, none empty, longer than 255 or with white space or a comma, the list has room and the signing key is the issuer's |
| LifecycleTerms.IssueErrors | src/services/vc/vc.service.ts:519-588 | the error of the first of these unmet, in that order |
| LifecycleTerms.IssueMeans | src/services/vc/vc.service.ts:589-688 | the credential says what was asked for, signed by the platform, and its row says so with the next index |
| LifecycleTerms.RenewErrors | src/services/vc/vc.service.ts:825-869 | a missing or revoked record fails as such; any other comes to what issuing for its subject, its scopes or the ones asked for, comes to |
| LifecycleTerms.RenewMeans | src/services/vc/vc.service.ts:825-869 | the record then points at its successor, and nothing else differs from that issuing |
| LifecycleTerms.RevokeTerms | src/services/vc/vc.service.ts:782-823 | fails on a missing or revoked record or without a list; else marks the row, sets its one bit and drops the cached list where its entry is on the list, and changes nothing else |
| LifecycleTerms.ClaimTerms | src/services/vc/vc.service.ts:871-894 | gives out the next index once, or reports 131072 given out; the first claim makes a list of clear bits and caches it |
| LifecycleTerms.SignedTerms | src/services/vc/vc.service.ts:381-401 | a signed credential is filed with its parent and, on the platform's list, its index, else 0; a grant with the index it names and no parent |
| DelegationTerms.DelegateTerms | src/services/agent/agent.service.ts:360-469 | delegated if and only if the delegator's key is held, a live agent credential of it, the one asked for or else the only one with all the scopes and depth left, has a list with the scopes and depth left, the delegatee is an onboarded agent with a live credential and another DID, and the list has room |
| DelegationTerms.DelegateErrors | src/services/agent/agent.service.ts:360-469 | the error of the first of these unmet, in the order of the code |
| DelegationTerms.DelegationMeans | src/services/agent/agent.service.ts:402-432 | the new credential hands the scopes down from that row, one deeper, signed by the delegator, and is stored with it as its parent |
| DelegationTerms.ConsentTerms | src/services/service-provider/service-provider.service.ts:162-242 | recorded if and only if the request is well-formed, the service enrolled, unrevoked and holding a key, the agent onboarded, every scope but the terms held by a live credential nobody delegated to it, some scope beside the terms asked for, the list has room and the agent is known |
| DelegationTerms.ConsentErrors | src/services/service-provider/service-provider.service.ts:162-242 | the error of the first of these unmet, in the order of the code |
| DelegationTerms.ConsentMeans | src/services/service-provider/service-provider.service.ts:217-242 | the grant is the service's signed word for the user, agent, scopes, lifetime and passing on asked for, and is stored |
| DelegationTerms.AgentScopesTerms | src/services/service-provider/service-provider.service.ts:250-276 | an onboarded agent with a live credential of its own gets just the scopes such credentials hold |
| SigningTerms.SignTerms | src/services/agent/agent.service.ts:239-297 | signing fails with the first of: no DID as target, no key, no live agent credential, nothing the user consented to, an entry of both kinds; else the presentation lasts five minutes and its entries are all that may be shown and nothing else |
| SigningTerms.ChosenTerms | src/services/agent/agent.service.ts:256-345 | that is: for no user the live agent credentials; for a user with grants to the holder these and those; else the grants that may be passed on to a DID the credentials embed, and the credentials that embed one |
| Replacement.StoringReplaces | src/services/vc/vc.service.ts:301-356 | storing a credential leaves every row as it is but its rivals, the live ones of its issuer, subject, user and type with its scopes, or with any when asked: each is chained if its scopes are the same, revoked if no live delegation hangs off it, and retained only if one did |
| Replacement.OneLeftStanding | src/services/vc/vc.service.ts:301-330 | so of those the live ones are then itself and the retained, which had delegations to carry |
| Replacement.ExternalTerms | src/services/vc/vc.service.ts:409-517 | one already there changes nothing; else the error of the first of proof, issuer, signature, end date, expiry and subject; one in order is stored, and fails for want of a list exactly where a live rival without a live delegation would have to be revoked |
| Failures.RefreshBeforeListFails | src/services/vc/vc.service.ts:333-356 | a run after which registering a credential in order fails, and stores it |
| Success.RevokeSucceedsIff | src/services/vc/vc.service.ts:782-823 | revoking succeeds if and only if the record is there and unrevoked and there is a list |
| VcInvariants.RevokeRowKeeps | src/services/vc/vc.service.ts:333-356 | revoking keeps rows and bits in agreement and touches no other row |
| VcInvariants.ReconcileKeeps | src/services/vc/vc.service.ts:301-330 | reconciliation keeps the invariant whichever rows it retires |
| VcInvariants.RegisterKeeps | src/services/vc/vc.service.ts:381-401 | storing a new row and reconciling keeps the invariant, adds that row only and leaves it unrevoked |
| VcInvariants.ClaimEntryKeeps | src/services/vc/vc.service.ts:871-894 | a claimed index belongs to no stored row |
| VcInvariants.IssueKeeps | src/services/vc/vc.service.ts:519-688 | issuing keeps the invariant |
| VcInvariants.RenewKeeps | src/services/vc/vc.service.ts:825-869 | renewing keeps the invariant, links included |
| VcInvariants.RevokeKeeps | src/services/vc/vc.service.ts:782-823 | revoking by hand keeps the invariant |
| VcInvariants.ExternalKeeps | src/services/vc/vc.service.ts:409-517 | registering a credential off the platform's list keeps the invariant |
| VcInvariants.LinkAdvances | src/services/vc/vc.service.ts:322-325 | a renewal link leads to a stored row created later |
| VcInvariants.LastRenewal | src/services/vc/vc.service.ts:854 | following the links from any record ends, at a record that was not renewed |
| Runs.ApplyKeeps | src/services/vc/vc.service.ts:301-973 | every call of the platform keeps the invariant; rows are only added and only their marks change |
| Runs.ReachableInv | src/services/vc/vc.service.ts:301-973 | the invariant holds in every state a run reaches |
| Runs.RowAndBitAgree | src/services/vc/vc.service.ts:333-370 | in every reachable state listed rows have distinct indexes below 131072, a row's bit reads 1 exactly when it is revoked, and unowned bits read 0 |
| Reconciliation.ReconciledExactly | src/services/vc/vc.service.ts:301-330 | each earlier sibling lands in exactly one list, active if and only if retained; same-scope ones point at the new credential; nothing else changes |
| Reconciliation.ActiveAfterStoring | src/services/vc/vc.service.ts:301-330 | after storing a credential the active ones with its identity and scopes are just it and the retained ones; with `revokeExisting` so are all with its identity |
| Reconciliation.RetainedForChildren | src/services/vc/vc.service.ts:322-337 | a sibling is retained if and only if active delegations hung off it in its turn, and every sibling is counted once |
| AgentFlows.FindDelegatorGrants | src/services/agent/agent.service.ts:317-351 | the passable grants of every ancestor, each once, and the credentials whose chain reaches one of them |
| AgentFlows.AgentService.SignVP | src/services/agent/agent.service.ts:239-296 | the agent's own grants first, else a delegator's; fails without key, credential or consent |
| AgentFlows.AgentService.DelegateAuthority | src/services/agent/agent.service.ts:360-432 | finds the source, claims an entry, builds and stores, stopping at the first failure |
| ServiceFlows.UnionOfScopes | src/services/service-provider/service-provider.service.ts:270-274 | the scopes that some listed credential holds |
| ServiceFlows.ServiceProviderService.GetAgentScopes | src/services/service-provider/service-provider.service.ts:250-276 | the union over the agent's active credentials not delegated to it |
| ServiceFlows.ServiceProviderService.IssueDelegationGrant | src/services/service-provider/service-provider.service.ts:162-242 | checks the request, the service and the scopes held, then claims, signs and stores |
| Presentations.AgentVCsAre | src/repositories/drivers/vc.drivers.ts:662-675 | exactly the stored, unrevoked and unexpired agent credentials of the subject |
| Presentations.GrantsAre | src/services/vc/vc.service.ts:268-283 | for faithful rows, exactly the active credentials of the grant type that the service issued to the agent and that name the user, whether or not they fit the schema |
| Presentations.ChosenFit | src/services/agent/agent.service.ts:256-277 | what is chosen is stored, active and fits the holder, the service and the user; inherited grants may be passed on and name somebody embedded in a chosen credential |
| Presentations.SignSucceedsIff | src/services/agent/agent.service.ts:239-296 | signing succeeds if and only if the target is a DID, the key is held, there is something to choose and nothing chosen passes for both an agent credential and a grant |
| Presentations.SignedVpIs | src/core/vp-builder.ts:48-88 | the presentation carries what was chosen, meets the composition rule and lasts five minutes |
| Acceptance.SignedVpAcceptedIff | src/services/agent/agent.service.ts:239-345 | for any store with faithful rows: accepted if and only if every chosen credential has proof, scopes and no other target and fails only as revoked or expired, some chain stands, every chosen grant fits its schema, names the holder or somebody on a standing chosen chain and fails only as revoked or expired, and one stands if there are any |
| Acceptance.SignedVpAccepted | src/core/vp-verifier.ts:327-441 | while each chosen credential and ancestor stands by itself, accepted before it expires if and only if the chosen credentials are in order and bound to no other service and the chosen grants fit their schema and name the holder or somebody on a chosen chain |
| Failures.BoundCredentialIsRefused | src/core/vp-verifier.ts:345-347 | a run after which what is signed for one service is refused because it carries a credential bound to another |
| Failures.ChainlessIsRefused | src/services/vc/vc.service.ts:618 | one call of `issueVC` with `delegatedFrom` after which everything the holder signs is refused for its missing parent chain |
| Failures.MalformedGrantIsRefused | src/core/vc-lookup.ts:54 | a run after which a grant is found and carried by its user column and sinks the presentation by its shape |
| Acceptance.SignedVpWorth | src/services/agent/agent.service.ts:299-345 | once accepted, its scopes are exactly those of the chosen credentials whose chains stand and, for a user, of those only what a standing chosen grant names to the holder or to somebody on that credential's chain |
| Rows.ApplyAdds | src/services/vc/vc.service.ts:301-973 | every row after a call was there before, or is the one row that call makes; only marks change |
| Rows.UpheldReachable | src/services/vc/vc.service.ts:301-973 | in every state of every run rows and bits agree, each row says what its credential says and each stored proof verifies |
| CarefulRuns.CarefulReachable | src/services/vc/vc.service.ts:301-973 | where `issueVC` names no delegator and only roots in order and well-formed grants are registered, every stored credential is in order with its ancestors stored, in every state |
| Orphans.NoOrphansReachable | src/services/vc/vc.service.ts:301-973 | with a clock that does not go back, over runs of any calls, no delegation is orphaned unless a revocation by hand met an active one or `issueVC` named a revoked or missing parent |
| Orphans.NeverOrphaned | src/services/vc/vc.service.ts:333-356 | in such runs a revoked record has no unrevoked and unexpired delegation, whatever reconciliation retired |
| Orphans.RevokeOrphansIff | src/services/vc/vc.service.ts:782-823 | revoking by hand orphans nothing if and only if nothing else that is active hangs off the credential |
| DelegatorRevoked.RestingOnRevokedIsRefused | src/services/agent/agent.service.ts:239-297 | over all runs: what is signed where all of the holder's active credentials rest on one revoked here is refused by every verifier that sees the list |
| DelegatorRevoked.RevokedUnderDelegation | src/services/vc/vc.service.ts:782-823 | one run in full, from an empty platform, with four calls: a revocation orphans a delegation, which is still signed and then refused |
| DelegatorRevoked.StandingAloneIsAccepted | src/services/agent/agent.service.ts:239-297 | over all runs: one active credential that stands is enough, the others being in order or dropped, and all its scopes may then be used |
| DelegatorRevoked.RenewedBeforeRevocation | src/services/vc/vc.service.ts:838-852 | the same run with a renewal before the revocation: accepted, and worth the delegated scopes |
| EndToEnd.StoredAcceptedIff | src/services/agent/agent.service.ts:239-345 | what is signed in one faithful state is accepted against another if and only if the chosen credentials pass as the rows of that other state say of them, and as verification says of those it does not hold |
| EndToEnd.PresentationsAcceptedIff | src/services/agent/agent.service.ts:239-345 | the same over all runs of any calls, with any events before the signing and any after it |
| EndToEnd.PresentationsAreAccepted | src/services/agent/agent.service.ts:239-345 | where nothing was orphaned and the chosen delegations were made here, what is signed is accepted until it expires, while what is outside the platform's list holds, if and only if what was chosen is in order |
| CarefulRuns.CarefulPresentations | src/services/agent/agent.service.ts:239-345 | in careful and gentle runs that is: if and only if no chosen credential is bound to another service |
| Consents.ConsentIsUsable | src/services/service-provider/service-provider.service.ts:162-276 | in any faithful state an allowed consent succeeds and, unless an agent credential passes for a grant, can be signed for; while all stands the service accepts if and only if the agent's credentials are in order and bound nowhere else and its grants fit their schema; the effective scopes are exactly those held by an active credential and named by an active grant, all consented ones but the terms included |
| Consents.OnboardedCanConsent | src/services/service-provider/service-provider.service.ts:162-276 | in any reachable state an agent can be onboarded on the checks of `issueVC` alone and then be granted any of its scopes while the credential lasts and the list has room |
| Consents.GrantWindow | src/core/grant.ts:63-84 | a standing grant is valid for 3650 days from its issue, a session grant for one, the end excluded |
| Consents.DelegationWindow | src/core/delegation.ts:76-88 | a delegation is valid from its making for the seconds asked, the end excluded |
| Consents.IssuedWindow | src/services/vc/vc.service.ts:589-594 | an issued credential lasts for ever, until the time or for the seconds asked, or 90 days by default |
| Cache.InProcessCache.Get | src/cache/InProcessCache.ts:14-22 | an entry past its time is dropped and not returned |
| Cache.InProcessCache.Set | src/cache/InProcessCache.ts:24-30 | stores with a time to live, or deletes when it is not positive |
| Cache.RedisCache.Set | src/cache/RedisCache.ts:24-30 | stores under the prefixed key with its lifetime, or deletes |
| Cache.TwoLayerCache.Get | src/cache/TwoLayerCache.ts:14-24 | the first layer answers, else the second, which refills the first |
| Cache.TwoLayerCache.Set | src/cache/TwoLayerCache.ts:26-33 | both layers get the value, each with its capped lifetime |
| Cache.TwoLayerCache.Delete | src/cache/TwoLayerCache.ts:35-38 | the key leaves both layers |
| Cache.LifetimeBound | src/cache/TwoLayerCache.ts:14-38 | over any sequence of calls a reading returns nothing or the value last set and not deleted since, and nothing once min(ttl, l2) + l1 seconds have passed, however often the first layer was refilled |
| CacheHits.SetIsFound | src/cache/TwoLayerCache.ts:14-33 | over any acts of any processes with a forward clock: within min(ttl, l2) seconds of the last set every process finds something, and that very value if it set it, has no live copy of its own, or l1 seconds have passed |
| CacheHits.OwnSetIsFound | src/cache/TwoLayerCache.ts:14-33 | without the shared layer the setter finds it within min(ttl, l1) seconds |
| CacheHits.SetIsForgotten | src/cache/TwoLayerCache.ts:14-33 | once min(ttl, l2) + l1 seconds have passed no process finds anything |
| CacheHits.DeletedIsGone | src/cache/TwoLayerCache.ts:35-38 | what was deleted and not set since is gone at once for the deleter and after l1 seconds for all |
| CacheHits.GetRefills | src/cache/TwoLayerCache.ts:14-24 | a read served by the shared layer leaves the value in the first layer for l1 seconds, which then serves it alone |
| Processes.CallUnserved | src/services/vc/vc.service.ts:782-823 | a call either leaves both cache layers and the bits alone or drops the list from the layers it reaches |
| Processes.AlwaysShortLived | src/services/vc/vc.service.ts:960-973 | no process ever holds a list longer than the first layer's lifetime from now |
| Processes.RunSpreads | src/services/vc/vc.service.ts:960-973 | a set bit stays set in the store and the shared layer, and stale first layers lapse |
| Processes.RevocationReachesAll | src/services/vc/vc.service.ts:782-823 | with any number of processes, every reading more than the first layer's lifetime after a bit was set serves it set |
| Processes.RevokeSetsBit | src/services/vc/vc.service.ts:782-823 | revoking a listed credential sets a bit that was clear |
| Processes.RevokedIsSeen | src/services/vc/vc.service.ts:782-823 | more than the first layer's lifetime after a listed credential is revoked, every reading by any process has its bit set |
| Readings.ReadingsAreTrue | src/services/vc/vc.service.ts:960-973 | over all runs of any number of processes every reading fails exactly while there is no list, is 131072 bits long, has a bit set only if the stored list has it set at that moment, and reads 0 at every index but those of revoked credentials |
| Readings.UnrevokedReadsClear | src/services/vc/vc.service.ts:960-973 | an unrevoked listed credential reads 0 at its index wherever it is read |
| Readings.UnrevokedIsUnflagged | src/core/vp-verifier.ts:177-216 | and no verifier that sees such a reading takes it for revoked |
| Readings.FreshReading | src/services/vc/vc.service.ts:960-973 | with nothing cached the reading is the stored list, and both layers keep it for as long as they may |
| Readings.CachedReading | src/services/vc/vc.service.ts:961-964 | a process with a live copy reads that |
| RevocationEffect.RevokedIsPowerless | src/core/vp-verifier.ts:177-216 | with its bit seen set, every scope of an accepted presentation comes from a credential that does not rest on it and, if grants came, from a grant that is not it |
| RevocationEffect.RevokedIsPowerlessEverywhere | src/core/vp-verifier.ts:282-455 | the same at every verifier that reads the list through any process past the first layer's lifetime |
| RevocationEffect.AuthorityEndsIff | src/core/vp-verifier.ts:177-216 | with one more entry revoked a scope is lost if and only if every standing credential that holds it rests on that entry |
| RevocationEffect.RenewedRestsOnItself | src/services/vc/vc.service.ts:838-852 | renewing gives an undelegated credential of the platform with the scopes of the row, which rests on its own new entry alone |
| Positional.RoundTripIff | src/core/crypto/vp.ts:50-113 | converting digits to another base and back is the identity if and only if some digit is not 0 |
| Positional.StepsTo | src/core/crypto/vp.ts:55-67 | one carry pass turns the digits of n into the digits of mul * n + d |
| Base58.Push | src/core/crypto/vp.ts:57-66 | the nested carry loops multiply and add; digits stay below the base, carries below the multiplier |
| Base58.EncodeBytes | src/core/crypto/keys.ts:65-83 | one first character per leading zero byte, then the base-58 digits of the number |
| Base58.DecodeText | src/core/crypto/keys.ts:85-106 | the bytes of the number after one zero byte per leading '1', or a failure at a foreign character |
| Base58.Base58btcEncode | src/core/crypto/vp.ts:50-77 | the same, with no text for no bytes |
| Base58.Base58btcDecode | src/core/crypto/vp.ts:79-113 | the same, with no bytes for no text |
| Base58.AlphabetIsOne | src/core/crypto/vp.ts:11 | 58 distinct characters, the first '1' |
| Base58.AlphabetIs | src/core/crypto/vp.ts:11 | the character of each of the 58 digits: 1 to 9, the capitals but I and O, the small letters but l |
| Base58.DecodeUndoesEncode | src/core/crypto/keys.ts:65-106 | decoding what was encoded gives the bytes back if and only if one is not zero |
| Base58.EncodeUndoesDecode | src/core/crypto/keys.ts:65-106 | encoding what was decoded gives the text back if and only if some character is not the first |
| Base58.Base58RoundTrips | src/core/crypto/vp.ts:50-113 | the same for the other pair of functions, which also round-trip the empty input |
| Base58.Base58IsCanonical | src/core/crypto/vp.ts:50-113 | likewise from text to bytes and back |
| Base58.PublicKeyToMultibase | src/core/crypto/keys.ts:49-55 | 'z' and the encoding of the two prefix bytes and the key |
| Base58.MultibaseToPublicKey | src/core/crypto/keys.ts:57-63 | what follows the first two decoded bytes, whatever those are |
| Base58.ResolveDidKey | src/core/did-resolver.ts:90-105 | the key of a did:key whose 34 bytes start with the Ed25519 prefix, or the failure |
| Base58.KeysSurvive | src/core/crypto/keys.ts:49-63 | every key survives the multibase form, and a did:key resolves to its key if and only if that has 32 bytes |
| Base58.DidKeyIsCanonical | src/core/did-resolver.ts:90-105 | a did:key that resolves is the did:key of the key it resolves to |
| Base58.DidKeyMeans | src/core/did-resolver.ts:90-105 | a did:key gives a key if and only if it is 'did:key:z' and the encoding of 0xed, 0x01 and the key's 32 bytes |
| Search.EscapedLikeIsSubstring | src/repositories/drivers/agent-record.drivers.ts:53-56 | under the LIKE semantics of section 8.5 of SQL-92, '%', the escaped term and '%' match exactly the texts holding the term literally, under any case fold |
| Search.NameSearchesAgreeIff | src/repositories/drivers/agent-record.drivers.ts:321-325 | a name is found alike by both searches, under every term lower-cased as ASCII is, if and only if it is so lower-cased itself |
| Search.TermSearchesAgreeIff | src/repositories/drivers/agent-record.drivers.ts:391 | a term finds alike all names lower-cased as ASCII is if and only if it is so lower-cased itself |
| Search.AsciiSearchesAgree | src/repositories/drivers/agent-record.drivers.ts:321-325 | every ASCII term finds every ASCII name alike, whatever `toLowerCase` does beyond ASCII |
| Search.AcuteLowerCases | src/repositories/drivers/agent-record.drivers.ts:391 | a name and a term on which the two searches differ |
| AgentListing.SqlWhereIsPasses | src/repositories/drivers/agent-record.drivers.ts:316-330 | the SQLite WHERE clause, in three-valued logic, is true of exactly the rows the in-memory filter keeps, wherever the two searches agree, as on ASCII |
| AgentListing.InMemoryAgentRecords.Create | src/repositories/drivers/agent-record.drivers.ts:352-358 | inserts the row, or returns the one there untouched |
| AgentListing.InMemoryAgentRecords.SetVisibility | src/repositories/drivers/agent-record.drivers.ts:365-373 | stamps the change; publishing sets the publication time and hiding clears it |
| AgentListing.InMemoryAgentRecords.UpdateCredentialState | src/repositories/drivers/agent-record.drivers.ts:375-379 | replaces what is known about the credential of a known agent |
| AgentListing.InMemoryAgentRecords.MarkRevokedByCredential | src/repositories/drivers/agent-record.drivers.ts:381-388 | marks every unrevoked row with that credential and no other |
| AgentListing.InMemoryAgentRecords.ListPublic | src/repositories/drivers/agent-record.drivers.ts:390-416 | at most `limit` rows, each a published row that passes the filters, shown with its status |
| AgentListing.MatchingIs | src/repositories/drivers/agent-record.drivers.ts:392-408 | the rows that pass, once each, newest first and then by DID |
| AgentListing.ListingMeans | src/repositories/drivers/agent-record.drivers.ts:390-416 | at most `limit` rows, newest first and then by DID, each public, of the status asked for, found by name or DID and beyond the cursor, shown active exactly while it has an unrevoked and unexpired credential; with room left, all of those |
| AgentListing.FollowingDrops | src/repositories/drivers/agent-record.drivers.ts:401-408 | asking for what follows a row drops everything up to that row |
| AgentListing.PagingRefinesListing | src/repositories/drivers/agent-record.drivers.ts:390-416 | following the pages, or asking for one row more than is shown, gives the whole listing, every matching agent once |
| Paging.PagesAreWhole | src/repositories/drivers/agent-record.drivers.ts:401-409 | pages asked for from the last row of the one before concatenate to the whole, for any page size |
| Paging.WalkIsWhole | src/repositories/agent-record.repository.ts:67-70 | a caller that asks for one row more than it shows sees the whole too |

## Left out

- Concurrency inside a call: every service call is one atomic step. The whole-list writes
  of `revokeVC` and `retire` and the first-use creation of the list are not atomic across
  awaits in the original.
- Replacing the default status list through `createStatusList`: it resets bits and claims by
  design, so runs do not do it. Other lists than the default one are not stored.
- External credentials that point at the platform's own list: `Runs.Allowed` excludes them,
  because such a row carries the placeholder index 0 and revoking it flips that bit.
- CarefulRuns.CarefulReachable: registered agent credentials carry no chain, so registering
  a delegation made elsewhere is covered by `EndToEnd.PresentationsAcceptedIff` alone.
- Consents.ConsentIsUsable: the service's identifier must be a DID, which `signVP` checks and
  `issueDelegationGrant` does not.
- The grant schema and the proof's shape beyond their presence are one truth value of a
  credential; what the columns and the passing on of a grant read is apart from it.
- Signatures, SHA-256, key custody, canonical JSON: proofs are functions of the body, and
  verification is an argument. Gzip and base64url are taken as a bijection, so a status list
  is its bytes.
- Base58.Push: one method stands for the two copies of the loops, `% 256` and `/ 256` for the
  masks and shifts, which agree because every intermediate value is below 14848.
- Hexadecimal text of keys: keys are byte lists. Private key normalisation is not modelled.
- AgentListing.SqlWhereIsPasses: times are numbers where SQLite compares ISO-8601 text.
- AgentListing.PagingRefinesListing: rows and `now` stay the same while the pages are followed.
- The sort by creation time in the credential queries: rows come in insertion order, which is
  that order while the clock does not go back.
- Search.NameSearchesAgreeIff: `toLowerCase` is any function that yields lower case, acts
  as the ASCII fold where no character beyond ASCII changes, and leaves no such character.
- Numbers are unbounded integers. An end date that cannot be parsed is rejected on
  registration and taken as absent elsewhere; other dates are always usable.
- The `durability` text and the `serviceDid` field of a grant, the nonce of a presentation,
  and the hook that lets a host veto a delegatee.
- The directory of keys and services does not change during a run; enrolling and onboarding
  challenges are not modelled.
- The Prisma and SQLite drivers apart from the agent search predicate; `getVCStatus`, `listVCs`
  and the other readers of status.
- HTTP routes, configuration, audit logging, did:web and did:hedera resolution, sessions.
- Which root issuers a service trusts: `verifyVP` fixes none, so nothing is claimed.
