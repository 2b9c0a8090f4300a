# sentiment-analyzer: identity, upload access and processing, in Dafny

This project models the core of the sentiment-analyzer web service: how a
verified login claim becomes a stored user, how the service decides whether
a user may see an upload, how the background worker classifies the entries
of an upload and marks it READY, and how the public `/check` endpoint answers
a batch of texts. The sentiment classifier is a black box: every operation
that uses it takes it as a parameter `predict: string -> SentimentLevel`.

Files and modules:

- `wrappers.dfy` (`Wrappers`): `Option` and `Result`.
- `models.dfy` (`Models`): users, uploads, entries, share grants, the identity
  claim, the five sentiment labels, upload statuses and the HTTP errors with
  their status codes and details.
- `identity.dfy` (`Identity`): the Authorization header split and the
  create-or-update of the user record (`UserStore`, a class over the user
  table `map<string, User>`; a ghost counter `commits` counts the writes).
- `access.dfy` (`Access`): the first-match-wins access check on an upload,
  as a function of the upload table and the grant table, with a separate
  reference rule `MayAccess` it is proved equal to.
- `broker.dfy` (`Broker`): the ASCII-only text filter and the worker step
  (`UploadStore`, a class over the upload table and an array of entry rows).
- `check.dfy` (`Check`): the multi-text check as a loop building the results.

Modelling choices:

- `User.organization` is declared as a required string column in
  app/models/user.py:8, yet `get_user` builds a user with organization `None`
  when the claim has no organization (app/dependencies.py:63,71), which that
  column cannot hold. The model follows the optional organization the code
  evidently intends: the field is `Option<string>`.
- The organization claim is a dictionary whose values are never read. The
  model keeps its keys, in dictionary order, as a sequence, so "the first
  key" (app/dependencies.py:69) is `organizations[0]`. An empty dictionary is
  the claim without an organization.
- `if user.organization:` (app/dependencies.py:111) is false both for `None`
  and for the empty string, so a user whose organization is `""` never gets
  ORG access. `Access.HasOrganization` states exactly that.
- `str.split(" ")` splits on every single space: `"Bearer  t"` has three
  parts and is rejected, and `"Bearer "` has two (the token is empty) and is
  accepted by this step.
- `Upload` and `UploadStatus` are not defined in the version of
  app/models/upload.py the worker imports them from, and the `UploadEntry`
  defined there (app/models/upload.py:18-20) is a response model with only a
  text and a non-optional sentiment, not the table row the worker queries.
  The model defines minimal records instead: `Models.Upload` has its id,
  name, owner and status, with the status one of PENDING, PROCESSING, READY
  and ERROR; `Models.UploadEntry` is the table row, with its upload id, its
  own id, its text and an optional sentiment that stays absent until the
  worker writes it. The sentiment labels are the five of
  app/services/sentiment_predict.py:8-13.
- The check endpoint imports `SentimentCheckResult` (app/routes/check.py:5),
  which app/models/check.py does not define, and builds
  `SentimentCheckResponse(results=...)` (app/routes/check.py:21), whose
  declared fields are `text` and `sentiment` (app/models/check.py:6-8). The
  model's `Check.CheckResult` (a text and its sentiment) stands in for the
  former, and the `seq<CheckResult>` that `Check.ReadItem` returns stands in
  for the response's `results` list.
- Each database transaction is one atomic update of the model's tables.

## Model

| member | source | states |
|---|---|---|
| `Identity.Split` | app/dependencies.py:36 | splitting on a separator gives one part more than the separator occurs, and no part contains it |
| `Identity.JoinSplit` | app/dependencies.py:36 | joining the parts of a split with the separator gives back the original header |
| `Identity.SplitJoin` | app/dependencies.py:36 | splitting a join of separator-free parts gives back exactly those parts |
| `Identity.BearerToken` | app/dependencies.py:36-41 | the header is accepted iff it holds exactly one space; otherwise 401 "Invalid auth token"; the token has no space |
| `Identity.BearerTokenShape` | app/dependencies.py:36-41 | an accepted header is a space-free scheme, one space and then the returned token |
| `Identity.BearerTokenOf` | app/dependencies.py:36-41 | a space-free scheme and token joined by one space yield exactly that token |
| `Identity.ResolveOrganization` | app/dependencies.py:63-69 | more than one organization key is a 500 error; no key gives no organization; a single key gives that key |
| `Identity.ClaimedUser` | app/dependencies.py:63-71 | the claimed user has the claim's subject id and email and the resolved organization, and fails exactly on a multi-organization claim |
| `Identity.ClaimWithOneOrganization` | app/tests/test_app.py:38-46 | the login test's claim with the single organization "murmurmur" yields the user the test at app/tests/test_app.py:77-84 expects |
| `Identity.UserStore.GetUser` | app/dependencies.py:59-87 | a multi-organization claim fails with no read or write; otherwise the store maps the subject to the claimed user, which is returned; the id of a known user is kept; other users are untouched; one write if the record was absent or differed, none if it already matched |
| `Identity.LoginTwice` | app/dependencies.py:73-87 | two logins with the same claim return the same result and write at most once |
| `Access.GetUploadFromPath` | app/dependencies.py:90-121 | 404 iff the upload is missing; success iff it exists and the reference rule allows the user (owner, USER grant to the user's id, or ORG grant to the user's non-empty organization), returning that upload; every other outcome is 403 |
| `Access.NotFoundFirst` | app/dependencies.py:95-97 | a missing upload is 404 for every user and every grant table |
| `Access.OwnerAlwaysAllowed` | app/dependencies.py:99-100 | the owner gets the upload whatever grants exist |
| `Access.DeniedIsForbidden` | app/dependencies.py:121 | an existing upload the rule denies is 403, never 404 |
| `Access.IrrelevantGrantIgnored` | app/dependencies.py:102-119 | adding a grant for another upload, or naming another recipient of its type, does not change the outcome |
| `Access.MoreGrantsKeepAccess` | app/dependencies.py:102-119 | adding grants never takes away access that was granted |
| `Access.NoOrganizationNoOrgAccess` | app/dependencies.py:111-119 | for a user without a (non-empty) organization, ORG grants make no difference |
| `Broker.AsciiOnly` | app/broker.py:31 | the filtered text holds only code points below 128 and is no longer than the input |
| `Broker.AsciiOnlyIsSubsequence` | app/broker.py:31 | the filtered text is a subsequence of the input |
| `Broker.AsciiOnlyCounts` | app/broker.py:31 | every ASCII character occurs as often as in the input, every other character not at all |
| `Broker.AsciiOnlyKeepsAscii` | app/broker.py:31 | all-ASCII text passes unchanged |
| `Broker.AsciiOnlyIdempotent` | app/broker.py:31 | filtering twice equals filtering once |
| `Broker.AsciiOnlyConcat` | app/broker.py:31 | filtering a concatenation is concatenating the filtered parts |
| `Broker.UploadStore.ProcessUpload` | app/broker.py:19-38 | every entry of the upload gets the sentiment of its ASCII-only text; texts and ids stay; other uploads' entries stay; the upload becomes READY and no other upload changes |
| `Broker.ProcessThenRead` | app/broker.py:24-36 | after processing, the upload is READY and none of its entries lacks a sentiment |
| `Check.ReadItem` | app/routes/check.py:13-21 | one result per input text, in input order, each echoing its text (as app/tests/test_app.py:101 asserts) with the prediction of the unfiltered text |

## Left out

- Verification of the identity token (app/dependencies.py:43-56): fetching the signing keys over the network and decoding the RS256 token are done by a foreign library; the model starts from a verified claim.
- Database engine and sessions (app/dependencies.py:14-21), `commit` and `refresh`: each operation is one atomic update of in-memory tables.
- The classifier (app/services/sentiment_predict.py:24-39): tokenizer, neural network, softmax and argmax over floats; only its five labels are modelled and `predict` is a parameter.
- The message broker, task dispatch and the application lifespan (app/broker.py:9-13, app/main.py): transport and concurrency.
- The `print` logging in app/broker.py.
- Broker.UploadStore.ProcessUpload: requires the upload to exist; the source crashes on a missing upload (`session.get` returns `None` at app/broker.py:34-35), and its entry writes are then not committed.
- Broker.UploadStore.ProcessUpload: the ERROR status is never set by the source, so the model never sets it either.
- Broker.IsAscii: Python strings can hold lone surrogate code points, which Dafny characters cannot; those are at least 128 and always removed, so nothing observable is lost.
- Check.ReadItem: the bounds that app/routes/check.py:15 declares (`min_items=1`, `max_items=10`, `max_length=1000`) are request validation done, if at all, by the framework before the handler runs; which of them the framework enforces depends on its version, so the model does not assume any of them and states its result for every list of texts, the empty one included.
- Identity.UserStore.GetUser: the NOT NULL constraint of the user table's `organization` column is not modelled; in the source a commit of a user without an organization (app/dependencies.py:77, 84) would fail with an unhandled error, while the model stores the absent organization the code evidently intends.
- Broker.UploadStore.ProcessUpload: `predict` is a total function here; in the source an exception from the classifier (app/broker.py:32) ends the task before the commit at app/broker.py:36, so no sentiment and no status is written. That failure path is not modelled.
- The upload handlers in app/routes/uploads.py return hard-coded lists and parse spreadsheets with pandas; creating, sharing, unsharing, deleting and listing uploads have no implementing code in this version and are not modelled.
- Routing, CORS and settings (app/main.py, app/routes/users.py, app/settings.py).
