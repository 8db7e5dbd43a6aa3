/** The over-fetching loop behind every timeline: it reads pages through a caller-supplied query and
    keeps the statuses whose thread is not muted. */
module PageLoop {
  import opened Wrappers
  import opened Threads

  /** A listed status: its id, the timestamp the listing sorts by, and its URI. */
  datatype Row = Row(id: string, at: int, uri: Uri)

  /** All rows a query selects from a cursor on, in its order and before its LIMIT. */
  type Query = Option<string> -> seq<Row>

  function Take<T>(s: seq<T>, n: nat): seq<T> {
    if |s| <= n then s else s[..n]
  }

  function Page(select: Query, limit: nat, cursor: Option<string>): seq<Row> {
    Take(select(cursor), limit)
  }

  /** Using the k-th row of `all` as the cursor selects the rows of `all` after it. */
  predicate ResumesAt(select: Query, all: seq<Row>, k: nat)
    requires 0 < k <= |all|
  {
    select(Some(all[k - 1].id)) == all[k..]
  }

  /** Resuming after any row of what `cursor` selects gives exactly the rows after it. */
  ghost predicate Resumes(select: Query, cursor: Option<string>) {
    Chains(select, select(cursor))
  }

  ghost predicate Chains(select: Query, all: seq<Row>) {
    forall k :: 0 < k <= |all| ==> ResumesAt(select, all, k)
  }

  /** The query reads `rows`, and a listed row used as a cursor leads past itself. */
  ghost predicate Advances(select: Query, rows: seq<Row>) {
    && (forall c, r :: r in select(c) ==> r in rows)
    && (forall a, b :: a in rows && b in select(Some(a.id)) ==> |select(Some(b.id))| < |select(Some(a.id))|)
  }

  function Visible(root: Row -> Uri, muted: set<Uri>, rows: seq<Row>): seq<Row> {
    if rows == [] then []
    else if root(rows[0]) in muted then Visible(root, muted, rows[1..])
    else [rows[0]] + Visible(root, muted, rows[1..])
  }

  lemma {:induction false} VisibleConcat(root: Row -> Uri, muted: set<Uri>, a: seq<Row>, b: seq<Row>)
    ensures Visible(root, muted, a + b) == Visible(root, muted, a) + Visible(root, muted, b)
  {
    if a == [] {
      assert a + b == b;
    } else {
      var ab := a + b;
      assert ab[0] == a[0] && ab[1..] == a[1..] + b;
      VisibleConcat(root, muted, a[1..], b);
    }
  }

  lemma {:induction false} NothingMuted(root: Row -> Uri, rows: seq<Row>)
    ensures Visible(root, {}, rows) == rows
  {
    if rows != [] { NothingMuted(root, rows[1..]); }
  }

  /** A row is shown exactly when it is there and its thread is not muted. */
  lemma {:induction false} VisibleMembers(root: Row -> Uri, muted: set<Uri>, rows: seq<Row>, r: Row)
    ensures r in Visible(root, muted, rows) <==> r in rows && root(r) !in muted
  {
    if rows != [] {
      VisibleMembers(root, muted, rows[1..], r);
      assert rows == [rows[0]] + rows[1..];
    }
  }

  function ThreadOf(g: Replies): Row -> Uri {
    (r: Row) => Root(g, r.uri)
  }

  method FilterMutedThreads(g: Replies, muted: set<Uri>, statuses: seq<Row>) returns (visible: seq<Row>)
    ensures visible == Visible(ThreadOf(g), muted, statuses)
  {
    if statuses == [] || muted == {} {
      NothingMuted(ThreadOf(g), statuses);
      return statuses;
    }
    visible := [];
    for i := 0 to |statuses|
      invariant visible == Visible(ThreadOf(g), muted, statuses[..i])
    {
      var thread := ResolveThreadRootUri(g, statuses[i].uri, ParentOf(g, statuses[i].uri));
      VisibleConcat(ThreadOf(g), muted, statuses[..i], [statuses[i]]);
      assert statuses[..i + 1] == statuses[..i] + [statuses[i]];
      if thread !in muted {
        visible := visible + [statuses[i]];
      }
    }
    assert statuses[..|statuses|] == statuses;
  }

  const USIZE_MAX: nat := 0xFFFF_FFFF_FFFF_FFFF
  const OVERFETCH_MULTIPLIER: nat := 3
  const OVERFETCH_MAX_LIMIT: nat := 200

  function SaturatingMul(a: nat, b: nat): nat {
    if a * b > USIZE_MAX then USIZE_MAX else a * b
  }

  function FetchLimit(limit: nat): nat {
    var tripled := SaturatingMul(limit, OVERFETCH_MULTIPLIER);
    var atLeast := if tripled < limit then limit else tripled;
    if atLeast > OVERFETCH_MAX_LIMIT then OVERFETCH_MAX_LIMIT else atLeast
  }

  /** Three times what is asked for, and never more than 200 rows, whatever the limit. */
  lemma FetchLimitIs(limit: nat)
    ensures FetchLimit(limit) == if 3 * limit <= 200 then 3 * limit else 200
  {
  }

  /** Pushes rows until the page is full. */
  method PushUntilFull(visible: seq<Row>, filtered: seq<Row>, limit: nat) returns (pushed: seq<Row>)
    requires |visible| < limit
    ensures pushed == Take(visible + filtered, limit)
  {
    pushed := visible;
    for i := 0 to |filtered|
      invariant pushed == visible + filtered[..i]
      invariant |pushed| < limit
    {
      pushed := pushed + [filtered[i]];
      assert pushed == visible + filtered[..i + 1];
      if |pushed| >= limit {
        return;
      }
    }
    assert filtered[..|filtered|] == filtered;
  }

  lemma TailChains(select: Query, rows: seq<Row>, k: nat)
    requires Chains(select, rows) && k <= |rows|
    ensures Chains(select, rows[k..])
  {
    var tail := rows[k..];
    forall j | 0 < j <= |tail| ensures ResumesAt(select, tail, j) {
      assert ResumesAt(select, rows, k + j);
      assert tail[j - 1] == rows[k + j - 1] && tail[j..] == rows[k + j..];
    }
  }

  /** A selection that chains, all of it listed, is a tail of the listing. */
  lemma ChainIsTail(select: Query, rows: seq<Row>, all: seq<Row>) returns (k: nat)
    requires Chains(select, rows) && Chains(select, all) && forall r :: r in all ==> r in rows
    ensures k <= |rows| && all == rows[k..]
  {
    if all == [] {
      k := |rows|;
    } else {
      assert all[0] in rows;
      k :| 0 <= k < |rows| && rows[k] == all[0];
      assert ResumesAt(select, rows, k + 1) && ResumesAt(select, all, 1);
      assert all == [all[0]] + all[1..] && rows[k..] == [rows[k]] + rows[k + 1..];
    }
  }

  /** Reading one page splits what is left into the page and what its last row leads to. */
  lemma PageTurn(select: Query, rest: seq<Row>, statuses: seq<Row>, n: nat) returns (left: seq<Row>)
    requires Chains(select, rest) && statuses == Take(rest, n) && statuses != []
    ensures rest == statuses + left && select(Some(statuses[|statuses| - 1].id)) == left
    ensures Chains(select, left) && (|statuses| < n ==> left == [])
  {
    var m := |statuses|;
    left := rest[m..];
    assert ResumesAt(select, rest, m);
    TailChains(select, rest, m);
  }

  /** `rest` is still to be fetched, and what it shows completes `goal`. */
  ghost predicate OnTrack(
    select: Query, root: Row -> Uri, muted: set<Uri>, goal: seq<Row>,
    cursor: Option<string>, rest: seq<Row>, visible: seq<Row>)
  {
    select(cursor) == rest && Chains(select, rest) && goal == visible + Visible(root, muted, rest)
  }

  /** One turn of the loop keeps the goal in reach; a full result or a short page has reached it. */
  lemma StayOnTrack(
    select: Query, root: Row -> Uri, muted: set<Uri>, goal: seq<Row>, cursor: Option<string>,
    rest: seq<Row>, visible: seq<Row>, statuses: seq<Row>, n: nat, limit: nat) returns (left: seq<Row>)
    requires OnTrack(select, root, muted, goal, cursor, rest, visible)
    requires statuses == Page(select, n, cursor) && statuses != []
    ensures var shown := visible + Visible(root, muted, statuses);
      && OnTrack(select, root, muted, goal, Some(statuses[|statuses| - 1].id), left, shown)
      && (|statuses| < n || |shown| >= limit ==> Take(shown, limit) == Take(goal, limit))
  {
    left := PageTurn(select, rest, statuses, n);
    VisibleConcat(root, muted, statuses, left);
    assert goal == visible + Visible(root, muted, statuses) + Visible(root, muted, left);
  }

  ghost predicate FromTable(rows: seq<Row>, root: Row -> Uri, muted: set<Uri>, visible: seq<Row>) {
    forall r :: r in visible ==> r in rows && root(r) !in muted
  }

  lemma PushedFromTable(rows: seq<Row>, root: Row -> Uri, muted: set<Uri>, visible: seq<Row>, statuses: seq<Row>, limit: nat)
    requires FromTable(rows, root, muted, visible) && forall r :: r in statuses ==> r in rows
    ensures FromTable(rows, root, muted, Take(visible + Visible(root, muted, statuses), limit))
  {
    var all := visible + Visible(root, muted, statuses);
    forall r | r in Take(all, limit) ensures r in rows && root(r) !in muted {
      assert r in all;
      VisibleMembers(root, muted, statuses, r);
    }
  }

  /** Fills a page of `limit` visible statuses. It always terminates and never shows a muted
      thread; where the query resumes correctly the result is the first `limit` of all unmuted rows. */
  method CollectVisibleStatuses(
    select: Query, ghost rows: seq<Row>, g: Replies, muted: set<Uri>, limit: nat, initialMaxId: Option<string>)
    returns (visible: seq<Row>)
    requires Advances(select, rows)
    ensures |visible| <= limit && FromTable(rows, ThreadOf(g), muted, visible)
    ensures Resumes(select, initialMaxId) ==>
      visible == Take(Visible(ThreadOf(g), muted, select(initialMaxId)), limit)
  {
    if limit == 0 {
      return [];
    }
    if muted == {} {
      NothingMuted(ThreadOf(g), select(initialMaxId));
      return Page(select, limit, initialMaxId);
    }
    visible := CollectPages(select, rows, g, muted, limit, initialMaxId);
  }

  ghost predicate AtListedRow(rows: seq<Row>, cursor: Option<string>) {
    exists r :: r in rows && cursor == Some(r.id)
  }

  /** The cursor moves to a listed row, with strictly less left to read. */
  lemma PageAdvances(select: Query, rows: seq<Row>, cursor: Option<string>, statuses: seq<Row>, n: nat)
    requires Advances(select, rows) && statuses == Page(select, n, cursor) && statuses != []
    ensures forall r :: r in statuses ==> r in rows
    ensures var next := Some(statuses[|statuses| - 1].id);
      AtListedRow(rows, next) && (AtListedRow(rows, cursor) ==> |select(next)| < |select(cursor)|)
  {
    assert forall r :: r in statuses ==> r in select(cursor);
  }

  method CollectPages(
    select: Query, ghost rows: seq<Row>, g: Replies, muted: set<Uri>, limit: nat, initialMaxId: Option<string>)
    returns (visible: seq<Row>)
    requires Advances(select, rows) && limit > 0
    ensures |visible| <= limit && FromTable(rows, ThreadOf(g), muted, visible)
    ensures Resumes(select, initialMaxId) ==>
      visible == Take(Visible(ThreadOf(g), muted, select(initialMaxId)), limit)
  {
    var fetchLimit := FetchLimit(limit);
    var cursor := initialMaxId;
    visible := [];
    ghost var root, rest, resumes := ThreadOf(g), select(initialMaxId), Resumes(select, initialMaxId);
    ghost var goal, first := Visible(root, muted, rest), true;
    while true
      invariant |visible| < limit && FromTable(rows, root, muted, visible)
      invariant if first then cursor == initialMaxId else AtListedRow(rows, cursor)
      invariant resumes ==> OnTrack(select, root, muted, goal, cursor, rest, visible)
      decreases first, |select(cursor)|
    {
      var statuses := Page(select, fetchLimit, cursor);
      if statuses == [] {
        return;
      }
      PageAdvances(select, rows, cursor, statuses, fetchLimit);
      PushedFromTable(rows, root, muted, visible, statuses, limit);
      ghost var shown := visible + Visible(root, muted, statuses);
      if resumes {
        rest := StayOnTrack(select, root, muted, goal, cursor, rest, visible, statuses, fetchLimit, limit);
      }
      cursor, first := Some(statuses[|statuses| - 1].id), false;
      var filtered := FilterMutedThreads(g, muted, statuses);
      visible := PushUntilFull(visible, filtered, limit);
      if |visible| >= limit || |statuses| < fetchLimit {
        return;
      }
    }
  }

  /** Following the cursor from `cursor`, `n` rows at a time, until a page comes back empty, reads
      everything once and in order. */
  method FollowPages(select: Query, n: nat, cursor: Option<string>) returns (seen: seq<Row>)
    requires n > 0 && Resumes(select, cursor)
    ensures seen == select(cursor)
  {
    ghost var rest := select(cursor);
    seen := [];
    var at := cursor;
    while true
      invariant select(at) == rest && Chains(select, rest)
      invariant select(cursor) == seen + rest
      decreases |rest|
    {
      var page := Page(select, n, at);
      if page == [] { return; }
      var left := PageTurn(select, rest, page, n);
      seen := seen + page;
      at, rest := Some(page[|page| - 1].id), left;
    }
  }
}
