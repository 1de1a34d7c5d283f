# Stash review client: a Dafny model

This project models the client-side core of a code-review client for the
Stash/Bitbucket Server REST API (Go, `api.go` and `pr.go`):

- the **request wrapper and status classifier** (`doRequest`, `checkErrorStatus`):
  every call carries the authentication headers; a transport failure is returned
  as it is; otherwise statuses 200/201/204 are success, 400/401/404/409 with a
  body are a structured API error carrying that body, and everything else names
  the unexpected status;
- **review assembly** (`GetReview`): every diff of the fetched changeset is
  stamped with the changeset's `FromHash`/`ToHash`, and the comment ids of every
  line are resolved against the diff's `LineComments` pool by a front-to-back
  scan that stops at the first match, appending each match both to the line and
  back into the pool being scanned;
- **change dispatch and version-carrying mutations** (`ApplyChange`,
  `addComment`, `modifyComment`, `removeComment`, `Approve`, `Decline`,
  `Merge`, `GetInfo`), the activity overview (`GetActivities`) and the
  populate-if-empty file-list cache (`GetFiles`);
- resource paths (`GetResource`, `GetRepo`) and the millisecond timestamp
  conversion (`UnixTimestamp.AsTime`).

The transport is a pure oracle `(headers, request) -> response`. A request is a
method tag (`DoGet`/`DoPost`/`DoPut`/`DoDelete` become `Get`/`Post`/`Put`/`Delete`),
the path segments built by `Res`/`Id`, the query map and whether a payload is
attached. A response either failed (`Failed`, possibly after the HTTP layer
recorded a status, as when decoding an empty 204 body fails) or replied with a
status, a body and the value the transport decoded into the caller's target.
A target of the wrong shape stays at Go's zero value. Every operation returns
its result together with the requests it issued, in order.

Modules: `Results` (Option/Result), `Decimal` (`fmt.Sprint` of integers and a
reader for it), `Entities` (comments, lines, diffs, changesets), `Http`
(requests, responses, errors), `Stash` (api.go), `Resolve` (comment resolution
of pr.go), `PullRequests` (the pr.go operations).

What the proofs establish, in short:

- the classifier reports an error exactly for statuses outside {200, 201, 204},
  with the body or the status as the source picks them;
- the scan with appends finds, for every id, what a lookup table built once from
  the pool as it was before resolution finds (`Resolve.Index`, first comment per
  id wins), so the appends never change a later lookup; each line gains one
  comment per id that has a match, in id order; the pool grows by exactly those
  comments, so by the number of matched ids (`Resolve.TotalHits`);
- each change variant issues exactly the request stated, additions without a
  version, modifications and removals addressed to the comment's id and carrying
  its version, which reads back as the same number (`Decimal.ParseInt`);
- a failed delete counts as success when status 204 was recorded;
- decline and merge read first and post once with the version just read, or stop
  after a failed read;
- a non-empty file cache is never refetched, and an empty one always is.

## Model

| member | source | states |
|---|---|---|
| Stash.CheckErrorStatus | api.go:108-123 | No error iff the status is 200, 201 or 204; `StashApiError(body)` iff the status is 400/401/404/409 and the body is non-empty; `UnexpectedStatusCode(status)` in every other case |
| Stash.DoRequest | api.go:78-97 | The transport is called with the authentication headers; a transport failure is returned unchanged without classification; a reply yields exactly the classifier's verdict |
| Stash.DoRequestSucceeds | api.go:84-96 | The wrapper reports success iff the transport replied with a status in {200, 201, 204} |
| Stash.AuthHeaders | api.go:82-83 | Every call carries exactly the user and token headers, holding the API's user and token |
| Stash.GetResource | api.go:38-40 | The root resource is the server URL followed by `/rest` |
| Stash.GetRepo | api.go:99-106 | A repository's resource is root, `api/1.0`, project name, `repos`, repository name, in that order |
| Stash.GetRepoInjective | api.go:103-104 | Two repository names of one project give the same resource only if they are equal |
| Stash.AsTime | api.go:34-36 | Seconds are milliseconds divided by 1000 truncated toward zero, for negative timestamps too |
| Stash.AsTimeNonNegative | api.go:35 | For non-negative timestamps the truncating division is ordinary division |
| Decimal.NatToString | pr.go:263 | The numeral is non-empty, all digits, and has no leading zero |
| Decimal.IntToString | pr.go:263 | The numeral starts with a minus sign iff the number is negative, and the digits after it are the shortest decimal numeral (no leading zero, a lone `0` only for zero) |
| Decimal.NatToStringRoundTrip | pr.go:263 | The digits printed for a natural number evaluate back to that number |
| Decimal.IntToStringRoundTrip | pr.go:262-271 | Reading back a printed version or id gives the original number |
| Decimal.IntToStringInjective | pr.go:270 | Distinct numbers are printed as distinct strings |
| Resolve.FirstMatch | pr.go:111-116 | The scan stops at the first pool position holding the id; no earlier position holds it; none is found only if no position holds it |
| Resolve.Lookup | pr.go:111-116 | A found comment is in the pool with the wanted id; nothing is found iff no pool comment has that id |
| Resolve.IndexEntryInPool | pr.go:111-113 | Every entry of the reference table is a pool comment carrying that id |
| Resolve.IndexCoversPool | pr.go:111-113 | Every id present in the pool has an entry in the reference table |
| Resolve.LookupAgreesWithIndex | pr.go:111-116 | The first-match scan and the table give the same answer for every id |
| Resolve.IndexSnoc | pr.go:114 | Appending a comment changes the table only when its id was absent |
| Resolve.IndexAppendPresent | pr.go:114 | Appending comments already in the pool leaves the table unchanged |
| Resolve.AppendKeepsLookup | pr.go:111-115 | Appending a comment that is already in the pool never changes what a later scan finds, for any id |
| Resolve.Hits | pr.go:110-118 | No more ids are kept than the line has, and every kept id has a match in the table |
| Resolve.HitsAppend | pr.go:110 | The kept ids of two id lists in a row are the kept ids of the first followed by those of the second, so the line's order is preserved |
| Resolve.MatchedAppend | pr.go:110-114 | The comments found for two id lists in a row are those of the first followed by those of the second, so comments follow the order of the ids |
| Resolve.HitsCount | pr.go:110-118 | Each id with a match is kept as often as it occurs on the line; each id without a match is dropped |
| Resolve.Matched | pr.go:110-118 | Exactly one comment is found per matched id |
| Resolve.MatchedFromPool | pr.go:113-114 | Every comment found, and so every comment appended to the pool, is already in the pool |
| Resolve.MatchedFollowsHits | pr.go:110-118 | The k-th comment found is the table's comment for the k-th matched id, so comments follow the order of the ids |
| Resolve.ResolveLineMatchesIndex | pr.go:110-118 | `ResolveLine`, the per-line loop over the growing pool, appends to the line exactly the comments the original pool's table gives, and appends the same comments to the pool |
| Resolve.AllMatchedLength | pr.go:114 | The comments appended to the pool over all lines number exactly the matched ids over all lines |
| Resolve.ResolveLines | pr.go:105-121 | Walking the lines in order annotates every line from the table of the pool as it was before the walk, and the pool ends extended by all the found comments |
| Resolve.ResolveDiff | pr.go:105-121 | A diff after resolution: same line count, every line annotated from the original pool, pool grown by exactly the number of matched ids, all other fields unchanged |
| Resolve.LineGainsScanResults | pr.go:110-116 | The k-th comment a line gains is the comment the first-match scan of the original pool finds for its k-th matched id |
| PullRequests.Stamp | pr.go:99-102 | A stamped diff records exactly the changeset's hash pair and is otherwise unchanged |
| PullRequests.Assemble | pr.go:99-130 | The review has the requested path, is not an overview, keeps the diff count, and every diff is stamped with the changeset's hashes and resolved against its own original pool |
| PullRequests.GetReview | pr.go:82-131 | One GET of the diff resource (with `whitespace=ignore-all` iff asked); on failure only the error is returned; on success the assembled review of the decoded changeset |
| PullRequests.GetActivities | pr.go:168-190 | One GET of the activities with the given limit; on success an overview review holding the decoded diffs unchanged and no hashes or path |
| PullRequests.GetInfo | pr.go:72-80 | One GET of the pull request; on success the decoded info, otherwise the wrapper's error |
| PullRequests.Approve | pr.go:133-136 | One POST to `approve`, without payload and without a version |
| PullRequests.VersionedPost | pr.go:138-166 | A GET of the pull request first; a failed GET returns its error and issues nothing more; otherwise exactly one POST to the action carrying the version just read, whose result is returned |
| PullRequests.Decline | pr.go:138-151 | The read-then-post protocol with the `decline` action |
| PullRequests.Merge | pr.go:153-166 | The read-then-post protocol with the `merge` action |
| PullRequests.VersionedPostSendsFetchedVersion | pr.go:144-150 | The version query of the POST reads back as the version the GET returned |
| PullRequests.GetFiles | pr.go:192-211 | A non-empty cache is returned with no request; an empty cache triggers one GET with `start=0` and `limit=1000` and then holds what was decoded, which is the returned list on success |
| PullRequests.GetFilesCaches | pr.go:192-211 | After a successful fetch, a non-empty list is served from the cache whatever the transport would answer; an empty one leads to another GET |
| PullRequests.AddComment | pr.go:248-259 | One POST to `comments` with a payload and no query; the result is the wrapper's verdict |
| PullRequests.ModifyComment | pr.go:261-280 | One PUT to `comments/<id>` with a payload and `version` equal to the comment's version; the result is the wrapper's verdict |
| PullRequests.RemoveComment | pr.go:282-304 | One DELETE to `comments/<id>` with `version` equal to the comment's version; success iff the reply was accepted or status 204 was recorded; any other error is returned unchanged |
| PullRequests.ApplyChange | pr.go:214-246 | The four additions each issue one POST to `comments`, a modification one PUT and a removal one DELETE to `comments/<id>`; any other value succeeds with no request; a failure is the called operation's error, unchanged |
| PullRequests.ApplyChangeCarriesVersion | pr.go:248-294 | Additions carry no version; modifications and removals carry a version that reads back as the comment's version and address the comment's id |

## Left out

- `GetInbox` (inbox.go): a GET with fixed query parameters and no logic of its own.
- The HTTP library, JSON decoding and reading the error body: the transport oracle supplies the status, the body and the decoded value; the read error at api.go:114 is ignored by the source and has no counterpart here.
- Logging, `Comment.Short` and the comment preview length: output only.
- `GetPayload`: its definition is not part of this model; a request only records that a payload is attached.
- `UnixTimestamp.String`: calendar formatting.
- Hunks and segments: a diff holds its lines directly, in the order the per-line walk visits them.
- The server's version checks and conflict detection: remote behaviour; the client only forwards the version it holds, and the model states what it forwards.
- PullRequests.RemoveComment: when the transport fails without recording any reply, `req.Raw` is nil at pr.go:297 and the Go code dereferences a nil pointer and panics; the model returns the transport error instead.
- PullRequests.GetFiles: when the transport fails, the cache is left empty; a partially decoded list is not modelled.
- The text of the two error kinds (`unexpectedStatusCode.Error`, `stashApiError.Error`, pr.go:12-22): message formatting only; the model keeps the status or the body they carry.
- Scenarios that combine a mutation with a later fetch (a new comment showing up on its line, a stale version being refused): they depend on what the server does with the request, which the transport oracle leaves open.
- Pull-request fields the core does not use (id, description, state, updated date, author, reviewers, from-ref, comment count), the self links of the pull-request info, and the comment a creation or edit decodes (only logged, pr.go:256 and pr.go:277) are not modelled.
- The pool is appended to while it is scanned and so keeps duplicate copies of matched comments; decline and merge make a single attempt; the file cache is a plain unguarded field. The model follows the code.
- An id listed twice on a line gains its comment twice, and comments already on the line are kept.
