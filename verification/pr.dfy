/**
  The pull-request operations of pr.go: assembling a review from the raw diff,
  the version-carrying mutations, the two-step decline and merge, the cached
  file list, and the dispatch of locally decided review changes.
*/
module PullRequests {
  import opened Results
  import opened Decimal
  import opened Entities
  import opened Http
  import opened Stash
  import opened Resolve

  /** A pull request as the client holds it; `reviewFiles` caches its changed-file list. */
  datatype PullRequest = PullRequest(
    api: Api,
    resource: seq<string>,
    reviewFiles: seq<ReviewFile>)

  /** A change decided locally, to be applied remotely; `Other` stands for any value the client does not know. */
  datatype ReviewChange =
    | ReplyAdded(comment: Comment, parent: Comment)
    | LineCommentAdded(comment: Comment)
    | ReviewCommentAdded(comment: Comment)
    | FileCommentAdded(comment: Comment)
    | CommentModified(comment: Comment)
    | CommentRemoved(comment: Comment)
    | Other
  {
    /** The changes that create a new comment. */
    predicate IsAddition() {
      ReplyAdded? || LineCommentAdded? || ReviewCommentAdded? || FileCommentAdded?
    }
  }

  /** The query key carrying an optimistic-concurrency token. */
  const VersionKey := "version"

  /** The status of a delete that is accepted whatever the wrapper reported. */
  const NoContent := 204

  const FilesQuery: map<string, string> := map["start" := "0", "limit" := "1000"]

  /** Values decoded into a target of the wrong shape stay at Go's zero value. */
  function AsChangeset(p: Payload): Changeset {
    if p.ChangesetPayload? then p.changeset else Changeset("", "", "", [])
  }

  function AsActivityDiffs(p: Payload): seq<Diff> {
    if p.ActivitiesPayload? then p.diffs else []
  }

  function AsInfo(p: Payload): PullRequestInfo {
    if p.InfoPayload? then p.info else PullRequestInfo(0)
  }

  function AsFiles(p: Payload): seq<ReviewFile> {
    if p.FilesPayload? then p.files else []
  }

  /**
    `r` is what sending `req` alone yields: that one request is issued, the
    operation succeeds exactly when the reply is accepted, and a failure is the
    wrapper's error for that reply.
  */
  predicate SentAlone<T>(pr: PullRequest, send: Transport, req: Request, r: Run<T>) {
    && r.sent == [req]
    && (r.result.Ok? <==> Accepted(send(AuthHeaders(pr.api), req)))
    && (r.result.Err? ==> DoRequest(pr.api, send, req).err == Some(r.result.error))
  }

  /** One call whose decoded reply is turned into the operation's value. */
  function Single<T>(pr: PullRequest, send: Transport, req: Request, decode: Payload -> T): (r: Run<T>)
    ensures SentAlone(pr, send, req, r)
    ensures r.result.Ok? ==> r.result.value == decode(send(AuthHeaders(pr.api), req).Decoded())
  {
    var c := DoRequest(pr.api, send, req);
    DoRequestSucceeds(pr.api, send, req);
    Run(Finish(c, decode(c.response.Decoded())), [req])
  }

  /** Reads the pull request itself, for its current version. */
  function GetInfo(pr: PullRequest, send: Transport): (r: Run<PullRequestInfo>)
    ensures SentAlone(pr, send, Request(Get, pr.resource, map[], false), r)
    ensures r.result.Ok? ==> r.result.value == AsInfo(send(AuthHeaders(pr.api), r.sent[0]).Decoded())
  {
    Single(pr, send, Request(Get, pr.resource, map[], false), AsInfo)
  }

  // ---------------------------------------------------------------- reviews

  function WhitespaceQuery(ignoreWhitespaces: bool): map<string, string> {
    if ignoreWhitespaces then map["whitespace" := "ignore-all"] else map[]
  }

  /** Records the changeset's revision pair on one diff. */
  function Stamp(d: Diff, fromHash: string, toHash: string): (r: Diff)
    ensures r.fromHash == [fromHash] && r.toHash == [toHash]
    ensures r.(fromHash := d.fromHash, toHash := d.toHash) == d
  {
    d.(fromHash := [fromHash], toHash := [toHash])
  }

  /**
    `r` is diff `d` of a changeset with revisions `fromHash`/`toHash` after
    assembly: stamped with the pair, every line annotated from the table of the
    diff's original pool, and the pool grown by exactly the comments found.
  */
  predicate Assembled(d: Diff, r: Diff, fromHash: string, toHash: string) {
    var index := Index(d.lineComments);
    && r.fromHash == [fromHash] && r.toHash == [toHash]
    && r.source == d.source && r.destination == d.destination
    && |r.lines| == |d.lines|
    && (forall j :: 0 <= j < |d.lines| ==> r.lines[j] == Annotate(d.lines[j], index))
    && r.lineComments == d.lineComments + AllMatched(d.lines, index)
    && |r.lineComments| == |d.lineComments| + TotalHits(d.lines, index)
  }

  /** Turns a fetched changeset into the review shown for `path`. */
  function Assemble(cs: Changeset, path: string): (r: Review)
    ensures !r.isOverview
    ensures r.changeset.path == path
    ensures r.changeset.fromHash == cs.fromHash && r.changeset.toHash == cs.toHash
    ensures |r.changeset.diffs| == |cs.diffs|
    ensures forall i :: 0 <= i < |cs.diffs| ==> Assembled(cs.diffs[i], r.changeset.diffs[i], cs.fromHash, cs.toHash)
  {
    var stamped := seq(|cs.diffs|, i requires 0 <= i < |cs.diffs| => Stamp(cs.diffs[i], cs.fromHash, cs.toHash));
    var resolved := seq(|stamped|, i requires 0 <= i < |stamped| => ResolveDiff(stamped[i]));
    Review(cs.(diffs := resolved, path := path), false)
  }

  /** Fetches the diff of `path` and assembles it; a failed fetch yields only the error. */
  function GetReview(pr: PullRequest, send: Transport, path: string, ignoreWhitespaces: bool): (r: Run<Review>)
    ensures SentAlone(pr, send, Request(Get, pr.resource + ["diff", path], WhitespaceQuery(ignoreWhitespaces), false), r)
    ensures r.result.Ok? ==> r.result.value == Assemble(AsChangeset(send(AuthHeaders(pr.api), r.sent[0]).Decoded()), path)
  {
    var req := Request(Get, pr.resource + ["diff", path], WhitespaceQuery(ignoreWhitespaces), false);
    Single(pr, send, req, (p: Payload) => Assemble(AsChangeset(p), path))
  }

  /** The activity feed's diffs, taken as they come, as an overview review. */
  function GetActivities(pr: PullRequest, send: Transport, limit: string): (r: Run<Review>)
    ensures SentAlone(pr, send, Request(Get, pr.resource + ["activities"], map["limit" := limit], false), r)
    ensures r.result.Ok? ==> r.result.value.isOverview
    ensures r.result.Ok? ==>
      r.result.value.changeset == Changeset("", "", "", AsActivityDiffs(send(AuthHeaders(pr.api), r.sent[0]).Decoded()))
  {
    var req := Request(Get, pr.resource + ["activities"], map["limit" := limit], false);
    Single(pr, send, req, (p: Payload) => Review(Changeset("", "", "", AsActivityDiffs(p)), true))
  }

  // ------------------------------------------------------ pull-request state

  function Approve(pr: PullRequest, send: Transport): (r: Run<()>)
    ensures SentAlone(pr, send, Request(Post, pr.resource + ["approve"], map[], false), r)
    ensures VersionKey !in r.sent[0].query
  {
    Single(pr, send, Request(Post, pr.resource + ["approve"], map[], false), (_: Payload) => ())
  }

  function VersionQuery(version: int): map<string, string> {
    map[VersionKey := IntToString(version)]
  }

  /**
    The two-step protocol of decline and merge: read the pull request; if the
    read fails, stop with its error; otherwise post `action` once, carrying the
    version just read. There is no second attempt.
  */
  predicate FetchThenPost(pr: PullRequest, send: Transport, action: string, r: Run<()>) {
    var fetch := Request(Get, pr.resource, map[], false);
    var fetched := send(AuthHeaders(pr.api), fetch);
    && |r.sent| >= 1 && r.sent[0] == fetch
    && (!Accepted(fetched) ==>
          && r.sent == [fetch]
          && r.result.Err?
          && DoRequest(pr.api, send, fetch).err == Some(r.result.error))
    && (Accepted(fetched) ==>
          && |r.sent| == 2
          && r.sent[1] == Request(Post, pr.resource + [action], VersionQuery(AsInfo(fetched.payload).version), false)
          && (r.result.Ok? <==> Accepted(send(AuthHeaders(pr.api), r.sent[1])))
          && (r.result.Err? ==> DoRequest(pr.api, send, r.sent[1]).err == Some(r.result.error)))
  }

  function VersionedPost(pr: PullRequest, send: Transport, action: string): (r: Run<()>)
    ensures FetchThenPost(pr, send, action, r)
  {
    var info := GetInfo(pr, send);
    match info.result
    case Err(e) => Run(Err(e), info.sent)
    case Ok(i) =>
      var post := Single(pr, send, Request(Post, pr.resource + [action], VersionQuery(i.version), false), (_: Payload) => ());
      Run(post.result, info.sent + post.sent)
  }

  function Decline(pr: PullRequest, send: Transport): (r: Run<()>)
    ensures FetchThenPost(pr, send, "decline", r)
  {
    VersionedPost(pr, send, "decline")
  }

  function Merge(pr: PullRequest, send: Transport): (r: Run<()>)
    ensures FetchThenPost(pr, send, "merge", r)
  {
    VersionedPost(pr, send, "merge")
  }

  /** The version a decline or merge sends reads back as the version just fetched. */
  lemma VersionedPostSendsFetchedVersion(pr: PullRequest, send: Transport, action: string)
    requires |VersionedPost(pr, send, action).sent| == 2
    ensures var r := VersionedPost(pr, send, action);
      VersionKey in r.sent[1].query
      && ParseInt(r.sent[1].query[VersionKey]) == Some(AsInfo(send(AuthHeaders(pr.api), r.sent[0]).Decoded()).version)
  {
    var fetched := send(AuthHeaders(pr.api), Request(Get, pr.resource, map[], false));
    IntToStringRoundTrip(AsInfo(fetched.Decoded()).version);
  }

  // ------------------------------------------------------------- file list

  /**
    The changed-file list, fetched only while the cache is empty. The cache is
    reset before the fetch and then holds whatever the reply decoded to, so an
    empty list leaves it empty and the next call fetches again.
  */
  function GetFiles(pr: PullRequest, send: Transport): (r: (Run<seq<ReviewFile>>, PullRequest))
    ensures r.1 == pr.(reviewFiles := r.1.reviewFiles)
    ensures |pr.reviewFiles| > 0 ==> r.0 == Run(Ok(pr.reviewFiles), []) && r.1 == pr
    ensures |pr.reviewFiles| == 0 ==>
      && SentAlone(pr, send, Request(Get, pr.resource + ["changes"], FilesQuery, false), r.0)
      && r.1.reviewFiles == AsFiles(send(AuthHeaders(pr.api), r.0.sent[0]).Decoded())
      && (r.0.result.Ok? ==> r.0.result.value == r.1.reviewFiles)
  {
    if |pr.reviewFiles| > 0 then (Run(Ok(pr.reviewFiles), []), pr)
    else
      var req := Request(Get, pr.resource + ["changes"], FilesQuery, false);
      var c := DoRequest(pr.api, send, req);
      DoRequestSucceeds(pr.api, send, req);
      var cached := AsFiles(c.response.Decoded());
      (Run(Finish(c, cached), [req]), pr.(reviewFiles := cached))
  }

  /**
    A fetch that produced a non-empty list is never repeated, whatever the
    transport would answer next; one that produced an empty list always is.
  */
  lemma GetFilesCaches(pr: PullRequest, send: Transport, later: Transport)
    requires GetFiles(pr, send).0.result.Ok?
    ensures var (first, pr') := GetFiles(pr, send);
      var (second, pr'') := GetFiles(pr', later);
      && (|first.result.value| > 0 ==> second == first.(sent := []) && pr'' == pr')
      && (|first.result.value| == 0 ==> |second.sent| == 1 && second.sent[0].path == pr.resource + ["changes"])
  {
  }

  // --------------------------------------------------------------- comments

  function CommentPath(pr: PullRequest, id: int): seq<string> {
    pr.resource + ["comments", IntToString(id)]
  }

  /** Creates a comment: one post with the change's payload and no version. */
  function AddComment(pr: PullRequest, send: Transport): (r: Run<()>)
    ensures SentAlone(pr, send, Request(Post, pr.resource + ["comments"], map[], true), r)
  {
    Single(pr, send, Request(Post, pr.resource + ["comments"], map[], true), (_: Payload) => ())
  }

  /** Edits a comment: one put to the comment, carrying the version the client holds. */
  function ModifyComment(pr: PullRequest, send: Transport, comment: Comment): (r: Run<()>)
    ensures SentAlone(pr, send, Request(Put, CommentPath(pr, comment.id), VersionQuery(comment.version), true), r)
  {
    Single(pr, send, Request(Put, CommentPath(pr, comment.id), VersionQuery(comment.version), true), (_: Payload) => ())
  }

  /**
    Deletes a comment: one delete carrying the version the client holds. An error
    is swallowed when the request recorded status 204; any other error is returned.
  */
  function RemoveComment(pr: PullRequest, send: Transport, comment: Comment): (r: Run<()>)
    ensures r.sent == [Request(Delete, CommentPath(pr, comment.id), VersionQuery(comment.version), false)]
    ensures var resp := send(AuthHeaders(pr.api), r.sent[0]);
      r.result.Ok? <==> Accepted(resp) || resp.Status() == Some(NoContent)
    ensures r.result.Err? ==> DoRequest(pr.api, send, r.sent[0]).err == Some(r.result.error)
  {
    var req := Request(Delete, CommentPath(pr, comment.id), VersionQuery(comment.version), false);
    var c := DoRequest(pr.api, send, req);
    DoRequestSucceeds(pr.api, send, req);
    var result := if c.err.Some? && c.response.Status() != Some(NoContent) then Err(c.err.value) else Ok(());
    Run(result, [req])
  }

  /**
    Applies one change: every addition posts to the comment collection, a
    modification puts and a removal deletes the comment itself, and any other
    value succeeds without a request.
  */
  function ApplyChange(pr: PullRequest, send: Transport, change: ReviewChange): (r: Run<()>)
    ensures change.Other? ==> r == Run(Ok(()), [])
    ensures !change.Other? ==> |r.sent| == 1
    ensures change.IsAddition() ==> r.sent[0] == Request(Post, pr.resource + ["comments"], map[], true)
    ensures change.CommentModified? ==>
      r.sent[0] == Request(Put, CommentPath(pr, change.comment.id), VersionQuery(change.comment.version), true)
    ensures change.CommentRemoved? ==>
      r.sent[0] == Request(Delete, CommentPath(pr, change.comment.id), VersionQuery(change.comment.version), false)
    ensures !change.Other? ==>
      var resp := send(AuthHeaders(pr.api), r.sent[0]);
      r.result.Ok? <==> Accepted(resp) || (change.CommentRemoved? && resp.Status() == Some(NoContent))
    ensures !change.Other? && r.result.Err? ==> DoRequest(pr.api, send, r.sent[0]).err == Some(r.result.error)
  {
    match change
    case ReplyAdded(_, _) => AddComment(pr, send)
    case LineCommentAdded(_) => AddComment(pr, send)
    case CommentRemoved(c) => RemoveComment(pr, send, c)
    case CommentModified(c) => ModifyComment(pr, send, c)
    case ReviewCommentAdded(_) => AddComment(pr, send)
    case FileCommentAdded(_) => AddComment(pr, send)
    case Other => Run(Ok(()), [])
  }

  /**
    What a change's request carries, read back: additions carry no version;
    modifications and removals address the comment's id and carry its version.
  */
  lemma ApplyChangeCarriesVersion(pr: PullRequest, send: Transport, change: ReviewChange)
    requires !change.Other?
    ensures var req := ApplyChange(pr, send, change).sent[0];
      && (change.IsAddition() ==> VersionKey !in req.query)
      && (!change.IsAddition() ==>
            && VersionKey in req.query
            && ParseInt(req.query[VersionKey]) == Some(change.comment.version)
            && ParseInt(req.path[|req.path| - 1]) == Some(change.comment.id))
  {
    IntToStringRoundTrip(change.comment.version);
    IntToStringRoundTrip(change.comment.id);
  }
}
