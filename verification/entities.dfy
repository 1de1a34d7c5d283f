/**
  The review data the client exchanges with Stash: comments, diff lines, diffs,
  changesets and the review assembled from them. Hunks and segments are
  flattened: a diff holds its lines in the order a per-line walk visits them.
*/
module Entities {

  /** Where a comment is attached: a file path and a line number (0 for file or review level). */
  datatype Anchor = Anchor(path: string, line: int)

  /** A remote comment; `version` is its optimistic-concurrency token. */
  datatype Comment = Comment(id: int, version: int, text: string, anchor: Anchor)

  /** One diff line: the ids of the comments anchored to it, and the comments resolved so far. */
  datatype Line = Line(text: string, commentIds: seq<int>, comments: seq<Comment>)

  /**
    One file's diff. `lineComments` is the pool of comments the server sent with the
    diff; `fromHash`/`toHash` are the revision markers kept in the diff's attributes.
  */
  datatype Diff = Diff(
    source: string,
    destination: string,
    lines: seq<Line>,
    lineComments: seq<Comment>,
    fromHash: seq<string>,
    toHash: seq<string>)

  /** The diff between two revisions. */
  datatype Changeset = Changeset(fromHash: string, toHash: string, path: string, diffs: seq<Diff>)

  /** A changeset prepared for display; `isOverview` marks one built from the activity feed. */
  datatype Review = Review(changeset: Changeset, isOverview: bool)

  /** An entry of a pull request's changed-file list. */
  datatype ReviewFile = ReviewFile(path: string)

  /** The part of a pull request's description that carries its current version. */
  datatype PullRequestInfo = PullRequestInfo(version: int)
}
