/**
  Resolution of the comment ids on each diff line against the diff's comment
  pool. The client scans the pool front to back, takes the first comment with
  the wanted id, appends it to the line AND to the pool it is scanning, and
  moves on to the next id. `Index` is the reference it is measured against: an
  id-to-comment table built once from the pool as it was before resolution
  began, in which the first comment with a given id wins.
*/
module Resolve {
  import opened Results
  import opened Entities

  /** Position of the first pool comment with id `id` (the scan that stops at the first match). */
  function FirstMatch(pool: seq<Comment>, id: int): (r: Option<nat>)
    ensures r.Some? ==> r.value < |pool| && pool[r.value].id == id
    ensures r.Some? ==> forall j :: 0 <= j < r.value ==> pool[j].id != id
    ensures r.None? ==> forall j :: 0 <= j < |pool| ==> pool[j].id != id
    decreases |pool|
  {
    if |pool| == 0 then None
    else if pool[0].id == id then Some(0)
    else match FirstMatch(pool[1..], id)
      case None => None
      case Some(k) => Some(k + 1)
  }

  /** The comment the scan finds for `id`, if any. */
  function Lookup(pool: seq<Comment>, id: int): (r: Option<Comment>)
    ensures r.Some? ==> r.value in pool && r.value.id == id
    ensures r.None? <==> forall c :: c in pool ==> c.id != id
  {
    match FirstMatch(pool, id)
    case None => None
    case Some(k) => Some(pool[k])
  }

  /** The lookup table of the pool: each id present maps to its first comment. */
  function Index(pool: seq<Comment>): map<int, Comment>
    decreases |pool|
  {
    if |pool| == 0 then map[] else Index(pool[1..])[pool[0].id := pool[0]]
  }

  /** Every entry of the table is a pool comment with that id. */
  lemma {:induction false} IndexEntryInPool(pool: seq<Comment>, id: int)
    requires id in Index(pool)
    ensures Index(pool)[id] in pool && Index(pool)[id].id == id
    decreases |pool|
  {
    if pool[0].id != id {
      IndexEntryInPool(pool[1..], id);
    }
  }

  /** Every id present in the pool has an entry in the table. */
  lemma {:induction false} IndexCoversPool(pool: seq<Comment>, c: Comment)
    requires c in pool
    ensures c.id in Index(pool)
    decreases |pool|
  {
    if pool[0] != c {
      IndexCoversPool(pool[1..], c);
    }
  }

  /** The first-match scan and the table agree on every id. */
  lemma {:induction false} LookupAgreesWithIndex(pool: seq<Comment>, id: int)
    ensures Lookup(pool, id) == if id in Index(pool) then Some(Index(pool)[id]) else None
    decreases |pool|
  {
    if |pool| > 0 && pool[0].id != id {
      LookupAgreesWithIndex(pool[1..], id);
      match FirstMatch(pool[1..], id)
      case None =>
      case Some(k) =>
        assert FirstMatch(pool, id) == Some(k + 1);
    }
  }

  /** Appending one comment changes the table only when its id was not there yet. */
  lemma {:induction false} IndexSnoc(pool: seq<Comment>, c: Comment)
    ensures Index(pool + [c]) == if c.id in Index(pool) then Index(pool) else Index(pool)[c.id := c]
    decreases |pool|
  {
    if |pool| > 0 {
      var head := pool[0];
      var tail := Index(pool[1..]);
      assert (pool + [c])[1..] == pool[1..] + [c];
      assert Index(pool + [c]) == Index(pool[1..] + [c])[head.id := head];
      assert Index(pool) == tail[head.id := head];
      IndexSnoc(pool[1..], c);
      if c.id in tail {
        assert Index(pool + [c]) == Index(pool);
      } else if c.id == head.id {
        assert tail[c.id := c][head.id := head] == tail[head.id := head];
      } else {
        assert tail[c.id := c][head.id := head] == tail[head.id := head][c.id := c];
      }
    } else {
      assert pool + [c] == [c];
      assert (pool + [c])[1..] == [];
    }
  }

  /** Appending comments already in the pool leaves the table unchanged. */
  lemma {:induction false} IndexAppendPresent(pool: seq<Comment>, ext: seq<Comment>)
    requires forall c :: c in ext ==> c in pool
    ensures Index(pool + ext) == Index(pool)
    decreases |ext|
  {
    if |ext| > 0 {
      var last := ext[|ext| - 1];
      var front := ext[..|ext| - 1];
      assert ext == front + [last];
      assert pool + ext == (pool + front) + [last];
      assert forall c :: c in front ==> c in ext;
      IndexAppendPresent(pool, front);
      IndexCoversPool(pool + front, last);
      IndexSnoc(pool + front, last);
    } else {
      assert pool + ext == pool;
    }
  }

  /**
    The append the client performs on a match never changes what a later scan of
    the pool finds, for any id.
  */
  lemma AppendKeepsLookup(pool: seq<Comment>, c: Comment, id: int)
    requires c in pool
    ensures Lookup(pool + [c], id) == Lookup(pool, id)
  {
    IndexSnoc(pool, c);
    LookupAgreesWithIndex(pool, id);
    LookupAgreesWithIndex(pool + [c], id);
  }

  /** The ids of `ids` that the table knows, in order and with repetitions. */
  function Hits(ids: seq<int>, index: map<int, Comment>): (h: seq<int>)
    ensures |h| <= |ids|
    ensures forall k :: 0 <= k < |h| ==> h[k] in index
    decreases |ids|
  {
    if |ids| == 0 then []
    else (if ids[0] in index then [ids[0]] else []) + Hits(ids[1..], index)
  }

  /** Filtering distributes over concatenation: the kept ids stay in the order of the line. */
  lemma {:induction false} HitsAppend(a: seq<int>, b: seq<int>, index: map<int, Comment>)
    ensures Hits(a + b, index) == Hits(a, index) + Hits(b, index)
    decreases |a|
  {
    if |a| > 0 {
      assert (a + b)[0] == a[0];
      assert (a + b)[1..] == a[1..] + b;
      HitsAppend(a[1..], b, index);
    } else {
      assert a + b == b;
    }
  }

  /** Every known id is kept as often as it occurs, every unknown id is dropped. */
  lemma {:induction false} HitsCount(ids: seq<int>, index: map<int, Comment>, id: int)
    ensures multiset(Hits(ids, index))[id] == if id in index then multiset(ids)[id] else 0
    decreases |ids|
  {
    if |ids| > 0 {
      assert ids == [ids[0]] + ids[1..];
      HitsCount(ids[1..], index, id);
    }
  }

  /** The comments found for `ids`: one per hit, in the order of the hits. */
  function Matched(ids: seq<int>, index: map<int, Comment>): (m: seq<Comment>)
    ensures |m| == |Hits(ids, index)|
    decreases |ids|
  {
    if |ids| == 0 then []
    else (if ids[0] in index then [index[ids[0]]] else []) + Matched(ids[1..], index)
  }

  /** The k-th comment found is the table's entry for the k-th hit. */
  lemma {:induction false} MatchedFollowsHits(ids: seq<int>, index: map<int, Comment>, k: int)
    requires 0 <= k < |Hits(ids, index)|
    ensures Matched(ids, index)[k] == index[Hits(ids, index)[k]]
    decreases |ids|
  {
    if ids[0] in index && k > 0 {
      MatchedFollowsHits(ids[1..], index, k - 1);
    } else if ids[0] !in index {
      MatchedFollowsHits(ids[1..], index, k);
    }
  }

  /** The comments found for consecutive id lists come in the order of the lists. */
  lemma {:induction false} MatchedAppend(a: seq<int>, b: seq<int>, index: map<int, Comment>)
    ensures Matched(a + b, index) == Matched(a, index) + Matched(b, index)
    decreases |a|
  {
    if |a| > 0 {
      assert (a + b)[0] == a[0];
      assert (a + b)[1..] == a[1..] + b;
      MatchedAppend(a[1..], b, index);
    } else {
      assert a + b == b;
    }
  }

  /** Every comment found through the table is a comment of the pool. */
  lemma {:induction false} MatchedFromPool(ids: seq<int>, pool: seq<Comment>)
    ensures forall c :: c in Matched(ids, Index(pool)) ==> c in pool
    decreases |ids|
  {
    if |ids| > 0 {
      var index := Index(pool);
      MatchedFromPool(ids[1..], pool);
      var head := if ids[0] in index then [index[ids[0]]] else [];
      assert Matched(ids, index) == head + Matched(ids[1..], index);
      if ids[0] in index {
        IndexEntryInPool(pool, ids[0]);
        assert head == [index[ids[0]]];
      }
    }
  }

  /**
    The client's per-line loop: for each id in order, scan the (growing) pool,
    and on the first match append the comment to the line's list and to the pool.
    Returns the line's comment list and the pool afterwards.
  */
  function ResolveLine(ids: seq<int>, pool: seq<Comment>, comments: seq<Comment>): (seq<Comment>, seq<Comment>)
    decreases |ids|
  {
    if |ids| == 0 then (comments, pool)
    else match Lookup(pool, ids[0])
      case None => ResolveLine(ids[1..], pool, comments)
      case Some(c) => ResolveLine(ids[1..], pool + [c], comments + [c])
  }

  /**
    Scanning the growing pool gives what the table of the pool as it was before
    the line gives: the line gains exactly the comments found for its ids, and
    the pool gains the very same comments.
  */
  lemma {:induction false} ResolveLineMatchesIndex(ids: seq<int>, pool: seq<Comment>, comments: seq<Comment>)
    ensures ResolveLine(ids, pool, comments).0 == comments + Matched(ids, Index(pool))
    ensures ResolveLine(ids, pool, comments).1 == pool + Matched(ids, Index(pool))
    decreases |ids|
  {
    if |ids| > 0 {
      var index := Index(pool);
      var rest := Matched(ids[1..], index);
      var found := Lookup(pool, ids[0]);
      LookupAgreesWithIndex(pool, ids[0]);
      if found.None? {
        ResolveLineMatchesIndex(ids[1..], pool, comments);
      } else {
        var c := found.value;
        MatchedHead(ids, index, c);
        ResolveLineStep(ids, pool, comments, c);
        IndexSnoc(pool, c);
        ResolveLineMatchesIndex(ids[1..], pool + [c], comments + [c]);
        SnocThenAppend(comments, c, rest);
        SnocThenAppend(pool, c, rest);
      }
    }
  }

  /** One unfolding of `Matched`, kept apart so that `ResolveLineMatchesIndex` stays cheap to verify. */
  lemma MatchedHead(ids: seq<int>, index: map<int, Comment>, c: Comment)
    requires |ids| > 0 && ids[0] in index && index[ids[0]] == c
    ensures Matched(ids, index) == [c] + Matched(ids[1..], index)
  {
  }

  /** One step of the per-line loop on a match, kept apart so that `ResolveLineMatchesIndex` stays cheap to verify. */
  lemma ResolveLineStep(ids: seq<int>, pool: seq<Comment>, comments: seq<Comment>, c: Comment)
    requires |ids| > 0 && Lookup(pool, ids[0]) == Some(c)
    ensures ResolveLine(ids, pool, comments) == ResolveLine(ids[1..], pool + [c], comments + [c])
  {
  }

  /** Sequence associativity, kept apart so that `ResolveLineMatchesIndex` stays cheap to verify. */
  lemma SnocThenAppend(s: seq<Comment>, c: Comment, t: seq<Comment>)
    ensures s + [c] + t == s + ([c] + t)
  {
  }

  /** A line after resolution against a fixed table. */
  function Annotate(line: Line, index: map<int, Comment>): Line {
    line.(comments := line.comments + Matched(line.commentIds, index))
  }

  /** Everything the lines of a diff find, line after line. */
  function AllMatched(lines: seq<Line>, index: map<int, Comment>): seq<Comment>
    decreases |lines|
  {
    if |lines| == 0 then []
    else Matched(lines[0].commentIds, index) + AllMatched(lines[1..], index)
  }

  /** The number of ids, over all lines, that find a comment. */
  function TotalHits(lines: seq<Line>, index: map<int, Comment>): nat
    decreases |lines|
  {
    if |lines| == 0 then 0 else |Hits(lines[0].commentIds, index)| + TotalHits(lines[1..], index)
  }

  lemma {:induction false} AllMatchedLength(lines: seq<Line>, index: map<int, Comment>)
    ensures |AllMatched(lines, index)| == TotalHits(lines, index)
    decreases |lines|
  {
    if |lines| > 0 {
      AllMatchedLength(lines[1..], index);
    }
  }

  /** The client's walk over the lines of one diff, threading the growing pool. */
  function ResolveLines(lines: seq<Line>, pool: seq<Comment>): (r: (seq<Line>, seq<Comment>))
    ensures |r.0| == |lines|
    ensures forall i :: 0 <= i < |lines| ==> r.0[i] == Annotate(lines[i], Index(pool))
    ensures r.1 == pool + AllMatched(lines, Index(pool))
    decreases |lines|
  {
    if |lines| == 0 then ([], pool)
    else
      var (comments, grown) := ResolveLine(lines[0].commentIds, pool, lines[0].comments);
      var found := Matched(lines[0].commentIds, Index(pool));
      ResolveLineMatchesIndex(lines[0].commentIds, pool, lines[0].comments);
      MatchedFromPool(lines[0].commentIds, pool);
      IndexAppendPresent(pool, found);
      var (rest, final) := ResolveLines(lines[1..], grown);
      ([lines[0].(comments := comments)] + rest, final)
  }

  /**
    Resolution of one diff. Every line gains exactly the comments the table of the
    original pool gives for its ids; the pool gains the same comments, line after
    line, so it grows by exactly the number of ids that found a comment; nothing
    else in the diff changes.
  */
  function ResolveDiff(d: Diff): (r: Diff)
    ensures |r.lines| == |d.lines|
    ensures forall i :: 0 <= i < |d.lines| ==> r.lines[i] == Annotate(d.lines[i], Index(d.lineComments))
    ensures r.lineComments == d.lineComments + AllMatched(d.lines, Index(d.lineComments))
    ensures |r.lineComments| == |d.lineComments| + TotalHits(d.lines, Index(d.lineComments))
    ensures r.(lines := d.lines, lineComments := d.lineComments) == d
  {
    AllMatchedLength(d.lines, Index(d.lineComments));
    var (lines, pool) := ResolveLines(d.lines, d.lineComments);
    d.(lines := lines, lineComments := pool)
  }

  /** What resolution leaves on one line, stated with the scan rather than the table. */
  lemma LineGainsScanResults(d: Diff, i: int, k: int)
    requires 0 <= i < |d.lines|
    requires 0 <= k < |Hits(d.lines[i].commentIds, Index(d.lineComments))|
    ensures var line := ResolveDiff(d).lines[i];
      var id := Hits(d.lines[i].commentIds, Index(d.lineComments))[k];
      Lookup(d.lineComments, id) == Some(line.comments[|d.lines[i].comments| + k])
  {
    var index := Index(d.lineComments);
    var id := Hits(d.lines[i].commentIds, index)[k];
    LookupAgreesWithIndex(d.lineComments, id);
    MatchedFollowsHits(d.lines[i].commentIds, index, k);
    var before := d.lines[i].comments;
    var found := Matched(d.lines[i].commentIds, index);
    assert ResolveDiff(d).lines[i].comments == before + found;
    assert (before + found)[|before| + k] == found[k];
  }
}
