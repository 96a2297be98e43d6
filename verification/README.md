# find-guardduty-user, modelled in Dafny

`find-guardduty-user` lists GuardDuty findings and, for each finding that
names an AWS credential, searches CloudTrail for the event that credential
produced in order to report the assumed-role ARN and the username behind it.
This project models the decision logic of that program with the remote
services abstracted away:

- `config.dfy` (module `Config`): the configuration checks run before any
  remote call. The partition must offer GuardDuty, partition and region must
  be non-empty, the region must be one of the partition's GuardDuty regions,
  and the output mode must be `text` or `json`. The region is checked first.
- `cloudtrail.dfy` (module `CloudTrail`): audit events, the exact-one event
  lookup, reading `userIdentity.arn` / `userIdentity.userName` from an event
  body, and reading the top-level `Username` of the event found by role ARN.
  CloudTrail is an oracle `Trail = Query -> Response`.
- `resolver.dfy` (module `Resolver`): per finding, the choice of credential
  reference (access key first, principal ID second, placeholders and empty
  values rejected), the first lookup, the empty-ARN skip, and the username
  fallback lookup. `ResolveFinding` returns its outcome together with the
  lookups it issued, so "no lookup happened" and "the second lookup was
  `ResourceName` = ARN" are stated directly.
- `findusers.dfy` (module `FindUsers`): the walk through a detector's pages
  of finding IDs, with its stop rules, and the pass over a page of fetched
  findings.
- `outcomes.dfy` (module `Outcomes`): `Option` for nil pointers, `Result`
  and `Outcome` for Go's error returns.

Modelling choices:

- The GuardDuty region table is a parameter, `map<partition, set<region>>`.
  A partition that is missing from it makes the region lookup fail, as an
  unknown partition does in the program. With the real table no partition
  has an empty ID, so an empty partition is reported as "no regions for
  service" rather than as an invalid partition. `CheckRegion` states that
  the invalid-partition error can only come from a table that has an empty
  partition ID.
- An event body is either `Unparseable` (nil, malformed or truncated text)
  or an already-parsed `Json` value. Decoding into a Go map accepts a JSON
  object, and also `null`, which leaves the map empty. Any other top-level
  value is a decoding error. `DecodeObject` models this.
- Every lookup asks CloudTrail for at most one result. The model does not
  assume the service honours that limit. It keeps the program's own check
  that exactly one event came back.
- The username fallback lookup follows either first lookup
  (main.go:477-486), and so does `ResolveFinding`.
- The page walk depends on the service's tokens, which may never run out.
  It therefore carries a `fuel` bound on the number of list requests.
  `finished` says whether the walk stopped by itself.

## Model

| member | source | states |
|---|---|---|
| Config.CheckRegion | main.go:131-153 | passes exactly when the partition offers GuardDuty, partition and region are non-empty and the region is in the partition's set; a partition that is not listed fails as "no regions for service" naming the service `guardduty`; a listed, non-empty partition with an empty or unlisted region fails as an invalid region naming that region; an invalid-partition error names the partition and needs a table with an empty partition ID |
| Config.CheckOutput | main.go:155-165 | passes exactly when the output mode is `text` or `json`; otherwise an invalid-output error naming the value |
| Config.CheckConfig | main.go:167-180 | passes exactly when both checks pass; a bad region is reported as a region-check failure even if the output is also bad; with a good region, a bad output is an output-check failure |
| CloudTrail.LookupEvent | main.go:183-201 | succeeds exactly when the lookup returned exactly one event, and returns that event; a service error or a count other than one is an error carrying the count |
| CloudTrail.DecodeObject | main.go:210-216 | an object body decodes to its members, `null` to the empty map, anything else (including unparseable text) is a decoding error |
| CloudTrail.GetRoleAndUser | main.go:204-227 | succeeds exactly when the lookup has one event whose body has an object `userIdentity` with a string `arn`, and then returns the identity that body declares; any failure after a unique event is a decoding, missing-identity or missing-ARN error |
| CloudTrail.GetRoleAndUserFailures | main.go:213-224 | for a unique event: undecodable body or non-object top level gives a decoding error, `null` or a non-object `userIdentity` gives a missing-identity error, a missing or non-string `arn` gives a missing-ARN error |
| CloudTrail.MissingUserNameReadsEmpty | main.go:225-226 | a missing or non-string `userName` is not an error: the username is "" |
| CloudTrail.GetUser | main.go:230-240 | succeeds exactly when the `ResourceName` = ARN lookup has one event, and returns that event's top-level username with nil read as "" |
| CloudTrail.GetUserIgnoresBody | main.go:237-238 | the username lookup's result does not depend on the event body at all |
| Resolver.SelectCredential | main.go:452-470 | the access key is chosen iff it is present, non-empty and not the placeholder; otherwise the principal ID iff it is present, non-empty and not its placeholder; otherwise nothing; the chosen reference is the finding's own value |
| Resolver.CredentialQuery | main.go:452-463 | an access key is searched under `AccessKeyId`, a principal ID under `ResourceName`, with the reference's value |
| Resolver.ResolveFinding | main.go:425-486 | at most two lookups; none exactly when the finding has no usable reference; the first is the chosen reference; a second exactly when the first identity has a non-empty ARN and empty username, and it is `ResourceName` = ARN; resolved exactly when that identity exists with a non-empty ARN and a username from it or from the second event; the output is the finding's fields with that ARN and username |
| Resolver.SkippedWithoutLookup | main.go:425-470 | a finding without access-key details, or whose access key and principal ID are both unusable, is skipped with no lookup |
| Resolver.AccessKeyTriedFirst | main.go:452-455 | a usable access key is what the first lookup searches, under `AccessKeyId` |
| Resolver.PrincipalIdAsSecondChoice | main.go:460-463 | the principal ID is searched, under `ResourceName`, when the access key is unusable and the principal ID is usable |
| Resolver.NoFallThroughToPrincipal | main.go:452-459 | when the access-key lookup fails, the finding is skipped after that single lookup; the principal ID is not tried |
| Resolver.UsernameFromSecondLookup | main.go:477-486 | an identity with an ARN but no username leads to exactly one more lookup, `ResourceName` = ARN; the finding resolves iff that lookup finds one event, and the username is that event's top-level username |
| Resolver.ResolvedIdentityWellFormed | main.go:472-475 | a resolved finding has a non-empty role ARN and a usable credential reference |
| Resolver.AmbiguousLookupSkips | main.go:197-200 | a response carrying two or more events for the reference skips the finding after that one lookup |
| Resolver.SampleFindingScenario | main.go:452-470 | a sample finding carrying the placeholder access key and no principal ID is skipped with no lookup |
| Resolver.AccessKeyScenario | main.go:452-486 | access key `AKIA123` whose event names role `arn:aws:iam::111:role/X` but no user, and whose role event names `alice`, resolves to that role and `alice` after exactly those two lookups |
| FindUsers.WalkPages | main.go:376-408 | the corrected page walk: at most `fuel` requests, the first sent with the starting token, one fetched page per request except possibly the last; out of budget when it did not stop by itself |
| FindUsers.WalkKeepsListedPages | main.go:403-419 | every request adds a page exactly unless the last request failed or listed no IDs, so a last page that lists IDs (with no next token) is still processed |
| FindUsers.WalkPagesMatchRequests | main.go:403-412 | every page the walk fetches is the non-empty ID list returned to its own request |
| FindUsers.WalkFollowsTokens | main.go:402-403 | every request after the first sends the token returned by the previous one, and that previous page did not end the walk |
| FindUsers.WalkStopsAtLastPage | main.go:499-502 | the walk stops by itself exactly when its last request failed, returned no IDs, or returned a nil or empty next token |
| FindUsers.FinishedWalkIgnoresBudget | main.go:376-503 | a walk that stopped by itself is unchanged by a larger request budget |
| FindUsers.WalkPagesAsWritten | main.go:396-408 | the walk as written: at most `fuel` requests, the first with the starting token, and out of budget when not stopped |
| FindUsers.FailingPageRetriedForever | main.go:396-400 | as written, a list request that keeps failing is re-sent with the same token for the whole budget, and the walk never stops or fetches a page |
| FindUsers.FailedRequestEndsWalk | main.go:396-400 | in the corrected walk a failed list request is never re-sent: it is the last request, and the walk has stopped by itself |
| FindUsers.WalksAgreeWithoutFailures | main.go:376-408 | when no list request the corrected walk sends fails, the walk as written and the corrected walk are identical |
| FindUsers.Printed | main.go:419-497 | a page prints at most one record per finding, each with a non-empty role ARN |
| FindUsers.Issued | main.go:419-486 | a page issues at most two lookups per finding |
| FindUsers.ProcessFindings | main.go:418-497 | the pass over a page prints exactly the records `Printed` describes and issues exactly the lookups `Issued` describes, so at most one record and two lookups per finding, nil findings skipped |

## Left out

- SDK calls and session setup (main.go:336-368): `ListDetectors`, `GetFindings`, session creation and credential loading are remote I/O. CloudTrail is an oracle parameter and the list call a function of the token; the walk over detectors is not modelled.
- CLI wiring, flag defaults, environment binding, and the `version` and `completion` commands (main.go:118-129, 242-313) are library glue.
- Logging configuration and the formatters `PrintJSON` and `Print` (main.go:38-76, 315-327, 488-496). The model stops at the `FindingDetail` record that would be printed.
- JSON parsing itself: event bodies arrive already parsed, or as `Unparseable`. JSON numbers are integers, since only whether a member is a string is ever read.
- The region table of the `endpoints` library is a parameter.
- A `GetFindings` error (main.go:413-416) is logged and leaves an empty result, so that page's findings are skipped and the walk goes on to the token check at main.go:500-502. The model does not fetch findings; `ProcessFindings` of an empty page, which prints nothing and makes no lookup, is what such a page comes to.
- Resolver.AmbiguousLookupSkips: every lookup asks for at most one result (main.go:188-192), and the model does not assume the service honours that limit. Under the real service a reference that matches several events is answered with one of them and the finding resolves from it; the lemma covers only a response that carries two or more events.
- Copying the service context (main.go:440-446) dereferences nested fields without nil checks. The model takes the context as already flattened into optional fields.
- FindUsers.WalkPages: the walk carries a `fuel` bound on list requests. A service whose tokens never run out is represented only by walks that run out of budget.

## Findings

| source | as written | input that shows it | evidently intended | confidence | as-written member | corrected member |
|---|---|---|---|---|---|---|
| main.go:396-400 | a failed `ListFindings` request is logged and followed by `continue`, which re-sends the same continuation token | a detector whose list request fails every time, for example for lack of permission | log the error and end this detector's walk, treating the failure as a page with no IDs | high; not executed | FindUsers.FailingPageRetriedForever | FindUsers.FailedRequestEndsWalk |

`WalkPagesAsWritten` models the loop as written: a failing request is
re-sent with the same token until the request budget runs out, and
`FailingPageRetriedForever` proves this for every budget. With an
unbounded budget the loop never ends. `WalkPages` is the corrected walk:
a failed request stops it, and `FailedRequestEndsWalk` proves that a failed
request is always the last one. The token-chain
lemmas describe `WalkPages`, and `WalksAgreeWithoutFailures` proves that
the correction changes nothing when no request fails.
