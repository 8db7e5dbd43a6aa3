/** Cursor paging over the SQL listings: which of them resume correctly, and from which cursors. */
module Paging {
  import opened Wrappers
  import opened Ordering
  import opened Threads
  import opened PageLoop

  /** The listings that are paged, by their ORDER BY and cursor condition.
      Recent: home and public timelines, ORDER BY created_at DESC, cursor `id < max_id`.
      Tagged: hashtag timeline, ORDER BY id DESC, cursor `id < max_id`.
      Marked: favourites and bookmarks, ORDER BY mark.created_at DESC, id DESC, cursor compared with
      the cursor row's own mark, or `id < max_id` when that row is no longer marked. */
  datatype Listing = Recent | Tagged | Marked

  predicate DistinctIds(rows: seq<Row>) {
    forall i, j :: 0 <= i < j < |rows| ==> rows[i].id != rows[j].id
  }

  predicate DescendingIds(rows: seq<Row>) {
    forall i, j :: 0 <= i < j < |rows| ==> Less(rows[j].id, rows[i].id)
  }

  function StampOf(r: Row): Stamp {
    Stamp(r.at, r.id)
  }

  /** `rows` is the whole result of the listing's query without cursor and LIMIT. Rows with equal
      `created_at` come in no particular order from `Recent`. */
  predicate ListedBy(q: Listing, rows: seq<Row>) {
    match q
    case Recent => DistinctIds(rows) && forall i, j :: 0 <= i < j < |rows| ==> rows[i].at >= rows[j].at
    case Tagged => DescendingIds(rows)
    case Marked => forall i, j :: 0 <= i < j < |rows| ==> Ahead(StampOf(rows[i]), StampOf(rows[j]))
  }

  /** The cursor row's own timestamp, when the row is still listed. */
  function MarkedAt(rows: seq<Row>, id: string): Option<int> {
    if rows == [] then None
    else if rows[0].id == id then Some(rows[0].at)
    else MarkedAt(rows[1..], id)
  }

  /** The WHERE condition of a page. */
  predicate Past(q: Listing, rows: seq<Row>, cursor: Option<string>, r: Row) {
    match cursor
    case None => true
    case Some(c) =>
      if q.Marked? && MarkedAt(rows, c).Some?
      then Ahead(Stamp(MarkedAt(rows, c).value, c), StampOf(r))
      else Less(r.id, c)
  }

  /** The rows of `rows`, a stretch of the listing `table`, that satisfy the WHERE condition. */
  function Where(q: Listing, table: seq<Row>, cursor: Option<string>, rows: seq<Row>): seq<Row> {
    if rows == [] then []
    else if Past(q, table, cursor, rows[0]) then [rows[0]] + Where(q, table, cursor, rows[1..])
    else Where(q, table, cursor, rows[1..])
  }

  function Select(q: Listing, rows: seq<Row>, cursor: Option<string>): seq<Row> {
    Where(q, rows, cursor, rows)
  }

  function QueryOf(q: Listing, rows: seq<Row>): Query {
    (cursor: Option<string>) => Select(q, rows, cursor)
  }

  // ---------------------------------------------------------------------------
  // Selecting
  // ---------------------------------------------------------------------------

  lemma {:induction false} WhereTail(q: Listing, table: seq<Row>, cursor: Option<string>, rows: seq<Row>, k: nat)
    requires k <= |rows|
    requires forall i :: 0 <= i < |rows| ==> (Past(q, table, cursor, rows[i]) <==> k <= i)
    ensures Where(q, table, cursor, rows) == rows[k..]
  {
    if rows != [] {
      assert Past(q, table, cursor, rows[0]) <==> k == 0;
      WhereTail(q, table, cursor, rows[1..], if k == 0 then 0 else k - 1);
      assert k > 0 ==> rows[1..][k - 1..] == rows[k..];
    }
  }

  lemma {:induction false} WhereMembers(q: Listing, table: seq<Row>, cursor: Option<string>, rows: seq<Row>, r: Row)
    ensures r in Where(q, table, cursor, rows) <==> r in rows && Past(q, table, cursor, r)
  {
    if rows != [] {
      WhereMembers(q, table, cursor, rows[1..], r);
      assert rows == [rows[0]] + rows[1..];
    }
  }

  lemma {:induction false} WhereNarrower(
    q: Listing, table: seq<Row>, wide: Option<string>, narrow: Option<string>, rows: seq<Row>, lost: Row)
    requires forall r :: r in rows && Past(q, table, narrow, r) ==> Past(q, table, wide, r)
    requires Past(q, table, wide, lost) && !Past(q, table, narrow, lost)
    ensures |Where(q, table, narrow, rows)| + (if lost in rows then 1 else 0) <= |Where(q, table, wide, rows)|
  {
    if rows != [] {
      WhereNarrower(q, table, wide, narrow, rows[1..], lost);
      assert rows == [rows[0]] + rows[1..];
    }
  }

  // ---------------------------------------------------------------------------
  // Which listings resume correctly
  // ---------------------------------------------------------------------------

  lemma SelectStart(q: Listing, rows: seq<Row>)
    ensures Select(q, rows, None) == rows
  {
    WhereTail(q, rows, None, rows, 0);
  }

  lemma {:induction false} MarkedAtListed(rows: seq<Row>, i: nat)
    requires i < |rows| && DistinctIds(rows)
    ensures MarkedAt(rows, rows[i].id) == Some(rows[i].at)
  {
    if i > 0 { MarkedAtListed(rows[1..], i - 1); }
  }

  lemma {:induction false} MarkedAtFinds(rows: seq<Row>, id: string) returns (i: nat)
    requires MarkedAt(rows, id).Some?
    ensures i < |rows| && rows[i].id == id && MarkedAt(rows, id) == Some(rows[i].at)
  {
    if rows[0].id == id { i := 0; } else { i := MarkedAtFinds(rows[1..], id); i := i + 1; }
  }

  /** Id-cursor listings resume correctly after every row exactly when ids descend down the list. */
  lemma IdCursorResumesIff(q: Listing, rows: seq<Row>)
    requires q != Marked && ListedBy(q, rows)
    ensures Resumes(QueryOf(q, rows), None) <==> DescendingIds(rows)
  {
    SelectStart(q, rows);
    if DescendingIds(rows) {
      forall k | 0 < k <= |rows| ensures ResumesAt(QueryOf(q, rows), rows, k) {
        IdCursorTail(q, rows, k - 1);
      }
    }
    if Resumes(QueryOf(q, rows), None) {
      forall i, j | 0 <= i < j < |rows| ensures Less(rows[j].id, rows[i].id) {
        assert ResumesAt(QueryOf(q, rows), rows, i + 1);
        ResumedIsSmaller(q, rows, i, j);
      }
    }
  }

  lemma ResumedIsSmaller(q: Listing, rows: seq<Row>, i: nat, j: nat)
    requires q != Marked && i < j < |rows| && Select(q, rows, Some(rows[i].id)) == rows[i + 1..]
    ensures Less(rows[j].id, rows[i].id)
  {
    assert rows[i + 1..][j - i - 1] == rows[j];
    WhereMembers(q, rows, Some(rows[i].id), rows, rows[j]);
  }

  lemma IdCursorTail(q: Listing, rows: seq<Row>, i: nat)
    requires q != Marked && DescendingIds(rows) && i < |rows|
    ensures Select(q, rows, Some(rows[i].id)) == rows[i + 1..]
  {
    var c := Some(rows[i].id);
    forall j | 0 <= j < |rows| ensures Past(q, rows, c, rows[j]) <==> i + 1 <= j {
      LessIrreflexive(rows[i].id);
      if j < i && Less(rows[j].id, rows[i].id) {
        LessTransitive(rows[j].id, rows[i].id, rows[j].id);
        LessIrreflexive(rows[j].id);
      }
    }
    WhereTail(q, rows, c, rows, i + 1);
  }

  /** The home and public timelines lose a status when two share the order the other way round:
      newest first lists "a" before "b", but `id < "a"` no longer finds "b". */
  lemma BackdatedIdIsSkipped()
    ensures var rows := [Row("a", 2, "u1"), Row("b", 1, "u2")];
      ListedBy(Recent, rows) && !Resumes(QueryOf(Recent, rows), None)
  {
    var rows := [Row("a", 2, "u1"), Row("b", 1, "u2")];
    assert !Less(rows[1].id, rows[0].id);
    IdCursorResumesIff(Recent, rows);
  }

  /** Favourites and bookmarks, one row per status: ties on the timestamp included. */
  lemma MarkedResumes(rows: seq<Row>)
    requires ListedBy(Marked, rows) && DistinctIds(rows)
    ensures Resumes(QueryOf(Marked, rows), None)
  {
    SelectStart(Marked, rows);
    forall k | 0 < k <= |rows| ensures ResumesAt(QueryOf(Marked, rows), rows, k) {
      var c := Some(rows[k - 1].id);
      MarkedAtListed(rows, k - 1);
      forall j | 0 <= j < |rows| ensures Past(Marked, rows, c, rows[j]) <==> k <= j {
        AheadIsStrictTotal(StampOf(rows[k - 1]), StampOf(rows[j]), StampOf(rows[j]));
      }
      WhereTail(Marked, rows, c, rows, k);
    }
  }

  /** Where resuming works from the top, it works from a cursor that selects a tail, and from no other. */
  lemma TailIff(q: Listing, rows: seq<Row>, cursor: Option<string>)
    requires Resumes(QueryOf(q, rows), None)
    ensures Resumes(QueryOf(q, rows), cursor) <==> exists k :: 0 <= k <= |rows| && Select(q, rows, cursor) == rows[k..]
  {
    SelectStart(q, rows);
    var select, all := QueryOf(q, rows), Select(q, rows, cursor);
    if k :| 0 <= k <= |rows| && all == rows[k..] {
      TailChains(select, rows, k);
    }
    if Resumes(select, cursor) {
      forall r | r in all ensures r in rows { WhereMembers(q, rows, cursor, rows, r); }
      var k := ChainIsTail(select, rows, all);
    }
  }

  /** Favourites and bookmarks resume from every listed status. */
  lemma MarkedResumesFromListed(rows: seq<Row>, i: nat)
    requires ListedBy(Marked, rows) && DistinctIds(rows) && i < |rows|
    ensures Resumes(QueryOf(Marked, rows), Some(rows[i].id))
    ensures Select(Marked, rows, Some(rows[i].id)) == rows[i + 1..]
  {
    MarkedResumes(rows);
    SelectStart(Marked, rows);
    assert ResumesAt(QueryOf(Marked, rows), rows, i + 1);
    TailIff(Marked, rows, Some(rows[i].id));
  }

  /** Behind a row whose id is below the cursor every row's id is. */
  predicate SmallIdsTrail(rows: seq<Row>, c: string) {
    forall i, j :: 0 <= i < j < |rows| && Less(rows[i].id, c) ==> Less(rows[j].id, c)
  }

  function FirstBelow(rows: seq<Row>, c: string): (k: nat)
    ensures k <= |rows| && forall i :: 0 <= i < k ==> !Less(rows[i].id, c)
    ensures k < |rows| ==> Less(rows[k].id, c)
  {
    if rows == [] || Less(rows[0].id, c) then 0 else 1 + FirstBelow(rows[1..], c)
  }

  lemma TailHoldsBehind(rows: seq<Row>, c: string, k: nat, i: nat, j: nat)
    requires DistinctIds(rows) && MarkedAt(rows, c).None? && i < j < |rows| && Less(rows[i].id, c)
    requires k <= |rows| && Select(Marked, rows, Some(c)) == rows[k..]
    ensures Less(rows[j].id, c)
  {
    WhereMembers(Marked, rows, Some(c), rows, rows[i]);
    var m :| 0 <= m < |rows[k..]| && rows[k..][m] == rows[i];
    assert rows[k + m].id == rows[i].id;
    assert rows[j] == rows[k..][j - k];
    WhereMembers(Marked, rows, Some(c), rows, rows[j]);
  }

  /** A favourites cursor that is not, or no longer, marked falls back to `id < max_id`: it resumes
      exactly when the smaller ids are at the end of the list. */
  lemma UnmarkedResumesIff(rows: seq<Row>, c: string)
    requires ListedBy(Marked, rows) && DistinctIds(rows) && MarkedAt(rows, c).None?
    ensures Resumes(QueryOf(Marked, rows), Some(c)) <==> SmallIdsTrail(rows, c)
  {
    MarkedResumes(rows);
    TailIff(Marked, rows, Some(c));
    if SmallIdsTrail(rows, c) {
      WhereTail(Marked, rows, Some(c), rows, FirstBelow(rows, c));
    }
    if k :| 0 <= k <= |rows| && Select(Marked, rows, Some(c)) == rows[k..] {
      forall i, j | 0 <= i < j < |rows| && Less(rows[i].id, c) ensures Less(rows[j].id, c) {
        TailHoldsBehind(rows, c, k, i, j);
      }
    }
  }

  // ---------------------------------------------------------------------------
  // Id cursors from any position
  // ---------------------------------------------------------------------------

  lemma {:induction false} WhereConcat(q: Listing, table: seq<Row>, cursor: Option<string>, a: seq<Row>, b: seq<Row>)
    ensures Where(q, table, cursor, a + b) == Where(q, table, cursor, a) + Where(q, table, cursor, b)
  {
    if a == [] {
      assert a + b == b;
    } else {
      assert (a + b)[0] == a[0] && (a + b)[1..] == a[1..] + b;
      WhereConcat(q, table, cursor, a[1..], b);
    }
  }

  /** Around a selected row the selection splits as the listing does. */
  lemma SplitAround(q: Listing, table: seq<Row>, cursor: Option<string>, rows: seq<Row>, i: nat)
    requires i < |rows| && Past(q, table, cursor, rows[i])
    ensures Where(q, table, cursor, rows)
         == Where(q, table, cursor, rows[..i]) + ([rows[i]] + Where(q, table, cursor, rows[i + 1..]))
  {
    assert rows == rows[..i] + rows[i..] && rows[i..][0] == rows[i] && rows[i..][1..] == rows[i + 1..];
    WhereConcat(q, table, cursor, rows[..i], rows[i..]);
  }

  /** The place in the listing of the m-th selected row. */
  lemma {:induction false} PlaceOf(q: Listing, table: seq<Row>, cursor: Option<string>, rows: seq<Row>, m: nat) returns (i: nat)
    requires m < |Where(q, table, cursor, rows)|
    ensures i < |rows| && Past(q, table, cursor, rows[i]) && |Where(q, table, cursor, rows[..i])| == m
  {
    if m == 0 && Past(q, table, cursor, rows[0]) {
      i := 0;
    } else {
      var past := Past(q, table, cursor, rows[0]);
      var k := PlaceOf(q, table, cursor, rows[1..], if past then m - 1 else m);
      i := k + 1;
      assert rows[..i][0] == rows[0] && rows[..i][1..] == rows[1..][..k];
    }
  }

  /** The rows with ids below the cursor come with descending ids. */
  predicate DescendingBelow(rows: seq<Row>, c: string) {
    forall i, j :: 0 <= i < j < |rows| && Less(rows[i].id, c) && Less(rows[j].id, c) ==> Less(rows[j].id, rows[i].id)
  }

  lemma {:induction false} SameWhere(q: Listing, table: seq<Row>, a: Option<string>, b: Option<string>, rows: seq<Row>)
    requires forall i :: 0 <= i < |rows| ==> (Past(q, table, a, rows[i]) <==> Past(q, table, b, rows[i]))
    ensures Where(q, table, a, rows) == Where(q, table, b, rows)
  {
    if rows != [] {
      assert Past(q, table, a, rows[0]) <==> Past(q, table, b, rows[0]);
      forall i | 0 <= i < |rows[1..]| ensures Past(q, table, a, rows[1..][i]) <==> Past(q, table, b, rows[1..][i]) {
        assert rows[1..][i] == rows[i + 1];
      }
      SameWhere(q, table, a, b, rows[1..]);
    }
  }

  /** From a row below the cursor the id cursor selects what the first cursor selected behind it. */
  lemma BehindRow(q: Listing, rows: seq<Row>, c: string, i: nat)
    requires q != Marked && DescendingBelow(rows, c) && i < |rows| && Less(rows[i].id, c)
    ensures Select(q, rows, Some(rows[i].id)) == Where(q, rows, Some(c), rows[i + 1..])
  {
    var d := Some(rows[i].id);
    forall j | 0 <= j < |rows| ensures Past(q, rows, d, rows[j]) <==> i < j && Past(q, rows, Some(c), rows[j]) {
      LessIrreflexive(rows[i].id);
      if Less(rows[j].id, rows[i].id) {
        LessTransitive(rows[j].id, rows[i].id, c);
        if j < i {
          LessTransitive(rows[i].id, rows[j].id, rows[i].id);
        }
      }
    }
    assert rows == rows[..i + 1] + rows[i + 1..];
    WhereConcat(q, rows, d, rows[..i + 1], rows[i + 1..]);
    WhereTail(q, rows, d, rows[..i + 1], i + 1);
    SameWhere(q, rows, d, Some(c), rows[i + 1..]);
  }

  /** Home, public and hashtag timelines resume from a cursor exactly when the ids below it descend,
      whether the cursor is a listed id or not. */
  lemma IdCursorResumesFromIff(q: Listing, rows: seq<Row>, c: string)
    requires q != Marked
    ensures Resumes(QueryOf(q, rows), Some(c)) <==> DescendingBelow(rows, c)
  {
    var select, all := QueryOf(q, rows), Select(q, rows, Some(c));
    if DescendingBelow(rows, c) {
      forall k | 0 < k <= |all| ensures ResumesAt(select, all, k) {
        var i := PlaceOf(q, rows, Some(c), rows, k - 1);
        SplitAround(q, rows, Some(c), rows, i);
        BehindRow(q, rows, c, i);
        assert all[k - 1] == rows[i] && all[k..] == Where(q, rows, Some(c), rows[i + 1..]);
      }
    }
    if Resumes(select, Some(c)) {
      forall i, j | 0 <= i < j < |rows| && Less(rows[i].id, c) && Less(rows[j].id, c) ensures Less(rows[j].id, rows[i].id) {
        SplitAround(q, rows, Some(c), rows, i);
        var k := |Where(q, rows, Some(c), rows[..i])| + 1;
        assert all[k - 1] == rows[i] && all[k..] == Where(q, rows, Some(c), rows[i + 1..]);
        assert rows[i + 1..][j - i - 1] == rows[j];
        WhereMembers(q, rows, Some(c), rows[i + 1..], rows[j]);
        assert ResumesAt(select, all, k);
        WhereMembers(q, rows, Some(rows[i].id), rows, rows[j]);
      }
    }
  }

  /** So with ids that descend down the whole list it works from every cursor. */
  lemma DescendingResumesFromAny(q: Listing, rows: seq<Row>, cursor: Option<string>)
    requires q != Marked && DescendingIds(rows)
    ensures Resumes(QueryOf(q, rows), cursor)
  {
    if cursor.Some? {
      IdCursorResumesFromIff(q, rows, cursor.value);
    } else {
      SelectStart(q, rows);
      forall k | 0 < k <= |rows| ensures ResumesAt(QueryOf(q, rows), rows, k) {
        IdCursorTail(q, rows, k - 1);
      }
    }
  }

  /** A favourites cursor whose row was un-favourited falls back to `id < max_id`, which is no tail:
      the second page reaches rows that the first page's condition excluded. */
  lemma UnmarkedCursorDoesNotResume()
    ensures var rows := [Row("a", 9, "u1"), Row("z", 5, "u2")];
      ListedBy(Marked, rows) && DistinctIds(rows) && !Resumes(QueryOf(Marked, rows), Some("m"))
  {
    var rows := [Row("a", 9, "u1"), Row("z", 5, "u2")];
    assert Less(rows[0].id, "m") && !Less(rows[1].id, "m");
    assert rows[1..] == [rows[1]] && rows[1..][1..] == [];
    assert MarkedAt(rows, "m") == None;
    UnmarkedResumesIff(rows, "m");
  }

  /** Each further page selects strictly less, whatever the table looks like. */
  lemma CursorAdvances(q: Listing, rows: seq<Row>, at: Row, last: Row)
    requires DistinctIds(rows) && at in rows && last in rows && Past(q, rows, Some(at.id), last)
    ensures |Select(q, rows, Some(last.id))| < |Select(q, rows, Some(at.id))|
  {
    var i :| 0 <= i < |rows| && rows[i] == at;
    var j :| 0 <= j < |rows| && rows[j] == last;
    MarkedAtListed(rows, i);
    MarkedAtListed(rows, j);
    LessIrreflexive(last.id);
    forall r | r in rows && Past(q, rows, Some(last.id), r) ensures Past(q, rows, Some(at.id), r) {
      if q.Marked? {
        AheadIsStrictTotal(StampOf(at), StampOf(last), StampOf(r));
      } else {
        LessTransitive(r.id, last.id, at.id);
      }
    }
    WhereNarrower(q, rows, Some(at.id), Some(last.id), rows, last);
  }

  /** So the loop terminates on every listing. */
  lemma ListingAdvances(q: Listing, rows: seq<Row>)
    requires DistinctIds(rows)
    ensures Advances(QueryOf(q, rows), rows)
  {
    var select := QueryOf(q, rows);
    forall c, r | r in select(c) ensures r in rows { WhereMembers(q, rows, c, rows, r); }
    forall a, b | a in rows && b in select(Some(a.id)) ensures |select(Some(b.id))| < |select(Some(a.id))| {
      WhereMembers(q, rows, Some(a.id), rows, b);
      CursorAdvances(q, rows, a, b);
    }
  }

  /** The listings of the repository, put together: from which cursors each fills pages exactly.
      Hashtag timelines always do; home and public ones when the ids below the cursor descend;
      favourites and bookmarks from the top, from every listed status, and from another cursor when
      the smaller ids are at the end of the list. */
  lemma ListingsThatFillPagesExactly(q: Listing, rows: seq<Row>, cursor: Option<string>)
    requires ListedBy(q, rows) && DistinctIds(rows)
    ensures q == Tagged ==> Resumes(QueryOf(q, rows), cursor)
    ensures q == Recent ==> (Resumes(QueryOf(q, rows), cursor) <==>
      if cursor.Some? then DescendingBelow(rows, cursor.value) else DescendingIds(rows))
    ensures q == Marked ==> (Resumes(QueryOf(q, rows), cursor) <==>
      cursor.None? || MarkedAt(rows, cursor.value).Some? || SmallIdsTrail(rows, cursor.value))
  {
    if q == Tagged {
      DescendingResumesFromAny(q, rows, cursor);
    } else if q == Recent {
      if cursor.Some? { IdCursorResumesFromIff(q, rows, cursor.value); } else { IdCursorResumesIff(q, rows); }
    } else if cursor.None? {
      MarkedResumes(rows);
    } else if MarkedAt(rows, cursor.value).Some? {
      var i := MarkedAtFinds(rows, cursor.value);
      MarkedResumesFromListed(rows, i);
    } else {
      UnmarkedResumesIff(rows, cursor.value);
    }
  }
}
