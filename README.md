# Registrations, sanctions and API scopes — a Dafny model

This project models four pieces of decision logic from the platform's
registration and permission code, and proves what each promises.

- **The nightly embargo sweeper** (`embargo_sweep.dfy`, module `EmbargoSweep`).
  - The *pending scan* promotes unapproved embargoes whose pending window has
    elapsed. It logs `EMBARGO_APPROVED` on the project the registration was
    made from.
  - The *completion scan*, run afterwards, finishes approved embargoes whose
    end date has passed. It makes the registration public and logs
    `EMBARGO_COMPLETED`.
  - A deleted registration makes either scan force-reject the embargo instead.
  - In a dry run nothing changes.
  - The store is class `Database`, with the embargo table, the registration
    table and the project logs as fields. Its two loop methods are proved to
    compute the pure folds `PendingPass` and `CompletionPass`, one iteration
    at a time; the lemmas state what those folds do to every item.
  - `ShouldBeEmbargoed` is the pending-window test itself:
    `now - initiationDate >= pendingTime`.
- **The sanction token endpoint** (`sanction_tokens.dfy`, module `SanctionTokens`).
  - A request names a sanction kind (registration approval, embargo or
    retraction), an action and a sanction id.
  - The handler refuses an unknown kind. It then refuses a missing, already
    approved or already rejected sanction, with a status code that depends on
    the kind.
  - Otherwise it invokes the sanction's own approve or reject, saves the
    sanction, pushes a success message and redirects.
  - `Dispatch` is the whole decision as a function. Class `SanctionStore`
    holds the sanctions and the queue of status messages; its method
    `HandleSanction` is proved to perform exactly that decision.
- **Recent public registrations** (`recent_registrations.dfy`, module
  `RecentRegistrations`).
  - A generator walks the public, non-deleted project registrations newest
    first, with a countdown. It skips retracted registrations and those
    pending embargo, and stops when the countdown reaches zero.
  - The model is a method with the same loop, returning everything the
    generator yields.
- **The OAuth scope check** (`scope_permissions.dfy`, module `ScopePermissions`).
  - A request whose authentication is a CAS token response must hold every
    required scope: the view's read scopes for GET, HEAD and OPTIONS, its
    write scopes otherwise.
  - Any other authentication passes.
  - Scope normalisation is a parameter that may fail; the failure stands for
    an unknown scope name.

`wrappers.dfy` holds the `Option` and `Result` types.

Where comments and code disagree, the model follows the code:

- `should_be_embargoed` is documented as "more than" the pending time, but
  compares with `>=`. The model uses `>=`.
- `_get_scopes` carries a comment that a write "implicitly also requires"
  the read scopes. The code returns the write scopes alone, and so does
  `GetScopes` (`GetScopesIgnoresOtherAttribute`).
- `recent_public_registrations` stops when `not n` holds. A negative count
  never reaches zero, so the generator yields every eligible registration,
  and so does the model.

## Model

| member | source | states |
|---|---|---|
| EmbargoSweep.AppendLog | scripts/embargo_registrations.py:44-51 | adding a log entry to a project extends that project's log by exactly that entry; every other project's log is unchanged |
| EmbargoSweep.ShouldBeEmbargoed | scripts/embargo_registrations.py:96-98 | the pending window has elapsed: `now - initiationDate >= pendingTime` |
| EmbargoSweep.PendingWindowBoundary | scripts/embargo_registrations.py:96-98 | an embargo initiated exactly the pending time ago is due and one initiated a moment later is not (`>=`, not `>`); once due it stays due |
| EmbargoSweep.AwaitingActivation | scripts/embargo_registrations.py:24-26 | an embargo the pending scan acts on: unapproved (the query) and past its pending window (the test) |
| EmbargoSweep.Elapsed | scripts/embargo_registrations.py:59-61 | an embargo the completion scan acts on: approved (the query) and with its end date before now (the test) |
| EmbargoSweep.ApprovalEntry | scripts/embargo_registrations.py:44-51 | the approval log entry: action `EMBARGO_APPROVED`, the registration's id as `node`, the embargo's id, and no actor |
| EmbargoSweep.CompletionEntry | scripts/embargo_registrations.py:80-87 | the completion log entry: action `EMBARGO_COMPLETED`, the registration's id as `node`, the embargo's id, and no actor |
| EmbargoSweep.PendingStep | scripts/embargo_registrations.py:26-52 | a pending iteration keeps the embargo table's size and never changes a registration |
| EmbargoSweep.PendingPrefix | scripts/embargo_registrations.py:25-52 | any number of pending iterations keep the table's size and the registrations |
| EmbargoSweep.PendingPass | scripts/embargo_registrations.py:24-57 | the pending scan never changes a registration or the number of embargoes |
| EmbargoSweep.PendingStepAt | scripts/embargo_registrations.py:25-52 | an iteration changes only its own embargo, and the outcome depends only on that row and its registration |
| EmbargoSweep.PendingPrefixAt | scripts/embargo_registrations.py:25-52 | after n iterations each earlier embargo is what its own iteration made of it; later ones are untouched |
| EmbargoSweep.ActivatesUnaffected | scripts/embargo_registrations.py:25-35 | earlier iterations do not change whether an embargo gets activated |
| EmbargoSweep.PendingPassLeavesOthers | scripts/embargo_registrations.py:24-26 | the pending scan changes only the state of embargoes, and only of unapproved ones whose window has elapsed |
| EmbargoSweep.PendingStepCount | scripts/embargo_registrations.py:43-51 | an iteration adds an approval entry about an embargo to a log exactly when it activates that embargo and the log is its registration's project |
| EmbargoSweep.PendingPrefixCount | scripts/embargo_registrations.py:43-51 | across the iterations, each log gains one approval entry per activated embargo of its project, and none for any other |
| EmbargoSweep.PendingStepLogsEntry | scripts/embargo_registrations.py:44-51 | an activating iteration appends its approval entry, with node, embargo id and no actor, to the registration's originating project |
| EmbargoSweep.PendingPrefixLogsEntry | scripts/embargo_registrations.py:44-51 | an activated embargo's approval entry stays in the project's log through later iterations |
| EmbargoSweep.PendingStepAppendOnly | scripts/embargo_registrations.py:44-51 | an iteration only appends actor-less approval entries to any log |
| EmbargoSweep.PendingPrefixAppendOnly | scripts/embargo_registrations.py:44-51 | the iterations together only append actor-less approval entries |
| EmbargoSweep.PendingPassAppendOnly | scripts/embargo_registrations.py:24-57 | under the pending scan every project log is append-only and gains only actor-less approval entries |
| EmbargoSweep.PendingPassRejectsDeleted | scripts/embargo_registrations.py:34-39 | in a real run an eligible embargo whose registration is deleted ends Rejected, and no approval is logged for it |
| EmbargoSweep.PendingPassApproves | scripts/embargo_registrations.py:41-52 | in a real run any other eligible embargo ends Approved; exactly one approval entry for it is added, in the originating project's log, and it carries the registration id and no actor |
| EmbargoSweep.PendingPrefixDryRun | scripts/embargo_registrations.py:27-34 | dry iterations change nothing |
| EmbargoSweep.PendingPassDryRun | scripts/embargo_registrations.py:24-57 | a dry pending scan leaves the whole store as it was |
| EmbargoSweep.PendingPassKeepsParents | scripts/embargo_registrations.py:29-64 | if every embargo either scan would look up has its registration, then after the pending scan every embargo the completion scan looks up (line 64) still has its registration |
| EmbargoSweep.CompleteStep | scripts/embargo_registrations.py:61-88 | a completion iteration keeps the number of embargoes and registrations |
| EmbargoSweep.CompletePrefix | scripts/embargo_registrations.py:60-88 | any number of completion iterations keep the table sizes |
| EmbargoSweep.CompletionPass | scripts/embargo_registrations.py:59-93 | the completion scan keeps the table sizes |
| EmbargoSweep.CompleteStepRegistration | scripts/embargo_registrations.py:70-78 | an iteration changes a registration only in its privacy, and makes it public iff it completes one of its embargoes |
| EmbargoSweep.CompletePrefixChangesOnlyPrivacy | scripts/embargo_registrations.py:76-78 | the completion iterations change registrations in their privacy only |
| EmbargoSweep.CompleteStepAt | scripts/embargo_registrations.py:60-88 | an iteration changes only its own embargo, and the outcome depends only on that row and whether its registration is deleted |
| EmbargoSweep.CompletesUnaffected | scripts/embargo_registrations.py:60-74 | earlier iterations do not change whether an embargo completes or what it sees of its registration apart from privacy |
| EmbargoSweep.CompletePrefixAt | scripts/embargo_registrations.py:60-88 | after n iterations each earlier embargo is what its own iteration made of it; later ones are untouched |
| EmbargoSweep.CompletionPassLeavesOthers | scripts/embargo_registrations.py:59-61 | the completion scan changes only the state of approved embargoes whose end date has passed; an embargo whose end date has not passed is unchanged |
| EmbargoSweep.CompletePrefixPrivacy | scripts/embargo_registrations.py:76-78 | after n iterations a registration is public iff it was, or one of the first n embargoes completed for it |
| EmbargoSweep.CompletionPassPrivacy | scripts/embargo_registrations.py:70-78 | after the completion scan a registration is public iff it was or one of its embargoes completed; only privacy changes, and a deleted registration is never made public |
| EmbargoSweep.CompleteStepCount | scripts/embargo_registrations.py:80-87 | an iteration adds a completion entry about an embargo exactly when it completes that embargo, in its project's log |
| EmbargoSweep.CompletePrefixCount | scripts/embargo_registrations.py:80-87 | each log gains one completion entry per completed embargo of its project, and none for any other |
| EmbargoSweep.CompleteStepLogsEntry | scripts/embargo_registrations.py:80-87 | a completing iteration appends its completion entry, with node, embargo id and no actor, to the originating project |
| EmbargoSweep.CompletePrefixLogsEntry | scripts/embargo_registrations.py:80-87 | a completed embargo's entry stays in the project's log through later iterations |
| EmbargoSweep.CompleteStepAppendOnly | scripts/embargo_registrations.py:80-87 | an iteration only appends actor-less completion entries |
| EmbargoSweep.CompletePrefixAppendOnly | scripts/embargo_registrations.py:80-87 | the iterations together only append actor-less completion entries |
| EmbargoSweep.CompletionPassAppendOnly | scripts/embargo_registrations.py:59-93 | under the completion scan every project log is append-only and gains only actor-less completion entries |
| EmbargoSweep.CompletionPassCompletes | scripts/embargo_registrations.py:76-88 | in a real run an elapsed embargo whose registration is not deleted ends Completed, its registration public, and exactly one completion entry for it is added, in the originating project's log |
| EmbargoSweep.CompletionPassRejectsDeleted | scripts/embargo_registrations.py:70-74 | in a real run an elapsed embargo whose registration is deleted ends Rejected; the registration is unchanged (not made public), and no completion is logged for it |
| EmbargoSweep.CompletePrefixDryRun | scripts/embargo_registrations.py:62-69 | dry completion iterations change nothing |
| EmbargoSweep.CompletionPassDryRun | scripts/embargo_registrations.py:59-93 | a dry completion scan leaves the whole store as it was |
| EmbargoSweep.NightlyPass | scripts/embargo_registrations.py:23-93 | the whole run keeps the sizes of both tables |
| EmbargoSweep.NightlyPassDryRun | scripts/embargo_registrations.py:23-93 | a dry run changes no embargo state, no registration's privacy and no log |
| EmbargoSweep.NightlyPassActivatesThenCompletes | scripts/embargo_registrations.py:59-61 | an embargo activated in a run whose end date has already passed is completed in the same run, and its registration made public |
| EmbargoSweep.NightlyPassLeavesEarly | scripts/embargo_registrations.py:24-61 | an unapproved embargo still inside its window, and a rejected or completed one, ends the run unchanged |
| EmbargoSweep.Database.ActivatePendingEmbargoes | scripts/embargo_registrations.py:24-57 | the pending loop leaves the store exactly as `PendingPass` describes; it needs a registration only for the embargoes it looks up (unapproved and past their window, line 29) |
| EmbargoSweep.Database.CompleteElapsedEmbargoes | scripts/embargo_registrations.py:59-93 | the completion loop leaves the store exactly as `CompletionPass` describes; it needs a registration only for the embargoes it looks up (approved and past their end date, line 64) |
| EmbargoSweep.Database.RunNightly | scripts/embargo_registrations.py:23-93 | the script's run is the pending loop then the completion loop, and leaves the store as `NightlyPass` describes; it needs a registration only for the embargoes one of the scans looks up |
| SanctionTokens.KindOf | website/tokens/handlers.py:46-52 | exactly "registration", "embargo" and "retraction" resolve to a model, each to its own |
| SanctionTokens.ActionOf | website/tokens/handlers.py:73-74 | only "approve" and "reject" name a sanction action |
| SanctionTokens.AlreadyApprovedStatus | website/tokens/handlers.py:63 | the code for an already approved sanction is 400 exactly for registration and embargo tokens, and 410 for retraction tokens |
| SanctionTokens.AlreadyRejectedStatus | website/tokens/handlers.py:66 | the code for an already rejected sanction is 410 exactly for registration and embargo tokens, and 400 for retraction tokens |
| SanctionTokens.ResolvedStatusTable | website/tokens/handlers.py:62-67 | already approved: 400 for registration and embargo, 410 for retraction; already rejected: 410 and 400 respectively |
| SanctionTokens.ResolvedStatusSwapped | website/tokens/handlers.py:62-67 | for every kind the two codes are 400 and 410 in some order, and retraction's order is the reverse of the others' |
| SanctionTokens.Precheck | website/tokens/handlers.py:57-71 | no error iff the sanction exists and is neither approved nor rejected; otherwise the first failing check (missing, approved, rejected) decides the code and message |
| SanctionTokens.NoticeText | website/tokens/handlers.py:13-36 | the six success texts, one per kind and action |
| SanctionTokens.RegistrationApprovalHandler | website/tokens/handlers.py:12-20 | pushes an untrusted success message; approving redirects to the registration, rejecting to the project it came from |
| SanctionTokens.EmbargoHandler | website/tokens/handlers.py:22-30 | pushes an untrusted success message; approving redirects to the registration, rejecting to the project it came from |
| SanctionTokens.RetractionHandler | website/tokens/handlers.py:32-40 | pushes an untrusted success message; approving redirects to the project the registration came from, rejecting to the registration |
| SanctionTokens.KindHandler | website/tokens/handlers.py:90-94 | the handler chosen by kind pushes an untrusted success message; approving registration and embargo tokens and rejecting retraction tokens redirect to the registration, the other cases to the project it came from |
| SanctionTokens.RedirectTargets | website/tokens/handlers.py:17-40 | for either action retraction redirects where registration and embargo tokens redirect for the opposite action |
| SanctionTokens.StatusMessageFixed | website/tokens/handlers.py:12-36 | the pushed message depends only on kind and action, and is an untrusted success message |
| SanctionTokens.StatusMessagesDistinct | website/tokens/handlers.py:12-36 | different (kind, action) pairs push different notices |
| SanctionTokens.Lookup | website/tokens/handlers.py:54-55 | a sanction is found iff the payload carries an id and a sanction of that kind has it |
| SanctionTokens.Dispatch | website/tokens/handlers.py:42-94 | an unknown kind is refused before any lookup; a failed check gives its error and nothing is saved or pushed; a sanction is saved and a message pushed exactly when the request redirects, which needs every check passed and the action returned normally; TokenError gives 400 with its messages, PermissionsError 401; a name that is no action gives no response; once the action returns, the updated sanction is saved and the kind's handler decides the redirect and the message |
| SanctionTokens.DispatchRedirects | website/tokens/handlers.py:73-94 | a successful request saves the updated sanction, pushes an untrusted success message and redirects to the registration (approved registration or embargo, rejected retraction) or to the project it came from (the other cases) |
| SanctionTokens.SanctionStore.HandleSanction | website/tokens/handlers.py:42-94 | returns `Dispatch`'s response; stores the updated sanction only when `Dispatch` saves it; appends exactly the message `Dispatch` pushes |
| RecentRegistrations.MatchesRecentQuery | website/project/utils.py:12-19 | a node the store query returns: a public, non-deleted registration of category "project" |
| RecentRegistrations.Listable | website/project/utils.py:26 | a queried registration the generator does not skip: neither retracted nor pending embargo |
| RecentRegistrations.FilterShown | website/project/utils.py:12-27 | the store query followed by the generator's skip test is a single filter by "shown" |
| RecentRegistrations.FilterKeepsNewestFirst | website/project/utils.py:17-23 | filtering keeps the newest-first order |
| RecentRegistrations.FilterPrefixIsSubsequence | website/project/utils.py:23-29 | any prefix of a filtered sequence is a subsequence of the original |
| RecentRegistrations.RecentPublicRegistrations | website/project/utils.py:11-29 | yields exactly the first min(n, #eligible) eligible registrations, or all of them when n is negative |
| RecentRegistrations.RecentPublicRegistrationsMeaning | website/project/utils.py:11-29 | at most n are yielded (none for n = 0); each is a public, non-deleted project registration that is neither retracted nor pending embargo; the output is a subsequence of the store in its order, newest first when the store is, and a prefix of the eligible registrations, so none is skipped before the limit |
| ScopePermissions.HasObjectPermission | api/base/permissions.py:20-22 | the object-level check always grants |
| ScopePermissions.GetScopes | api/base/permissions.py:45-62 | a safe method requires exactly the view's read scopes, any other method exactly its write scopes; a view lacking that attribute is improperly configured |
| ScopePermissions.GetScopesIgnoresOtherAttribute | api/base/permissions.py:47-62 | a safe request does not depend on the write scopes, and any other request does not depend on the read scopes |
| ScopePermissions.HasPermission | api/base/permissions.py:24-43 | non-OAuth authentication passes whatever is required; otherwise a configuration error comes first, then an unrecognised token scope is an error, and otherwise access is granted iff every required scope is among the normalised token scopes |
| ScopePermissions.MoreScopesNeverRevoke | api/base/permissions.py:43 | a token whose normalised scopes include another's keeps every access the other has |
| ScopePermissions.NoRequiredScopesGrant | api/base/permissions.py:43 | when no scope is required, every request whose token scopes normalise is granted |

## Left out

- The object store's queries (`find`, `find_one`, `load`, `Q`) are modelled as an in-memory store. Query results arrive in table order, and the registrations come newest first, as the sort leaves them.
- Transactions (`TokuTransaction`) and the per-item exception catching in the sweeper: each item's update is modelled as atomic and successful.
- The default `dry_run=True` of `main`: `dryRun` is an explicit parameter of the model, with no default.
- Logging, the dry-run warnings, `init_app`, the file logger and the command-line `__main__` block.
- The wall clock: `now` is a parameter, one value for the whole run, where the source reads the clock once per embargo.
- The value of `settings.EMBARGO_PENDING_TIME`: `pendingTime` is a parameter. The setting's value is not part of this model; the docstring speaks of 48 hours.
- `forcibly_reject` and `save`: `forcibly_reject` is modelled only as setting the state to rejected, and `save` as the store update.
- `set_privacy('public')`: modelled only as setting the registration's public flag.
- An embargo that one of the scans acts on but whose registration cannot be found: the source's lookup (lines 29 and 64) would raise and end the run. The pure step functions leave such an item unchanged. The loop methods require a registration for exactly the embargoes their scans look up; other embargoes need none.
- The sanction's `approve` and `reject` bodies, and token decoding and verification: what the action did is the `ActionOutcome` input (returned with the updated sanction, or raised TokenError or PermissionsError).
- The registration lookup `Node.find_one` of the sanction handler: each stored sanction carries its registration and that registration's `registered_from`.
- Redirect URLs and error texts: Flask redirects and `web_url_for` URLs are modelled as the node to redirect to. Error messages are constructors carrying the kind, whose `DISPLAY_NAME` text is not modelled. The fixed short message 'Unauthorized access' is implied by `UnauthorizedAccess`.
- `status.push_status_message` is modelled as appending to the store's message queue. The message texts are given by `NoticeText`.
- The `must_be_logged_in` decorator and the `auth` and `encoded_token` arguments handed to the action.
- `getattr(sanction, action, None)` finds any attribute of the sanction, not just `approve` and `reject`, and line 74 calls it only when its value is truthy. A name that is not an attribute gives the empty response, and so does an attribute whose value is falsy, such as `is_approved` or `is_rejected` once the checks have passed. A truthy attribute (`save`, `DISPLAY_NAME`, ...) is called with the user and the token. That call then raises, or returns and saves the sanction before the handler's `[action]` lookup fails. The model gives the empty response for every name other than approve and reject; the raising and saving cases of truthy attributes are not modelled.
- The generator's laziness: the model returns everything the generator yields when run to the end; a consumer that stops early sees a prefix of it. The default `n=10` is a parameter.
- `oauth_scopes.normalize_scopes` is a parameter (`Normalizer`); its failure stands for the KeyError of an unknown scope name. The exact APIException message text is not modelled; the error carries the token's scopes.
- Reading `token.attributes['accessTokenScope']` outside the try block (api/base/permissions.py:34) raises a KeyError when the CAS response carries no scope attribute. `CasResponse` always carries the token's scope list, so the model has no such case.
- `SAFE_METHODS` comes from the REST framework (GET, HEAD, OPTIONS) and is restated here. The class attribute `message` is not modelled.
- `PermissionWithGetter`: dynamic class construction over `operator.attrgetter`.
- The web pages' scripts, the test files, the citation add-on providers and the analytics settings are not part of this model.
