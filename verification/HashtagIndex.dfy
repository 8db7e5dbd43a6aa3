/** The hashtag index: `hashtags` and `status_hashtags` kept in step with the statuses' content. */
module HashtagIndex {
  import opened Wrappers
  import opened Ordering
  import opened Text
  import opened Hashtags

  datatype Row = Row(status: string, tag: nat)

  /** `statuses` holds each status's content under its id; `tags` the id of each hashtag under its
      case-folded name (`name` is UNIQUE COLLATE NOCASE); `rows` is UNIQUE(status_id, hashtag_id).
      Generated hashtag ids start at `nextId`. */
  datatype Tables = Tables(statuses: map<string, string>, tags: map<string, nat>, rows: set<Row>, nextId: nat)

  /** Foreign keys hold and hashtag ids are unique. */
  ghost predicate Wf(t: Tables) {
    && (forall r :: r in t.rows ==> r.status in t.statuses && exists n :: n in t.tags && t.tags[n] == r.tag)
    && (forall m, n :: m in t.tags && n in t.tags && t.tags[m] == t.tags[n] ==> m == n)
    && (forall n :: n in t.tags ==> t.tags[n] < t.nextId && Lower(n) == n)
  }

  /** The tag names the index holds for a status. */
  function IndexOf(t: Tables, id: string): set<string> {
    set n | n in t.tags && Row(id, t.tags[n]) in t.rows
  }

  function TagSet(content: string): set<string> {
    Names(Extract(content))
  }

  predicate Indexed(t: Tables, id: string)
    requires id in t.statuses
  {
    IndexOf(t, id) == TagSet(t.statuses[id])
  }

  ghost predicate AllIndexed(t: Tables) {
    forall id :: id in t.statuses ==> Indexed(t, id)
  }

  lemma StartIsIndexed(nextId: nat)
    ensures Wf(Tables(map[], map[], {}, nextId)) && AllIndexed(Tables(map[], map[], {}, nextId))
  {
  }

  // ---------------------------------------------------------------------------
  // Statements
  // ---------------------------------------------------------------------------

  /** INSERT OR IGNORE INTO hashtags */
  function EnsureTag(t: Tables, name: string): Tables {
    if Lower(name) in t.tags then t
    else t.(tags := t.tags[Lower(name) := t.nextId], nextId := t.nextId + 1)
  }

  /** Links a status to a tag: ensure, look the id up, INSERT OR IGNORE INTO status_hashtags. */
  function AddTag(t: Tables, id: string, name: string): Tables {
    var u := EnsureTag(t, name);
    u.(rows := u.rows + {Row(id, u.tags[Lower(name)])})
  }

  function AddTags(t: Tables, id: string, names: seq<string>): Tables
    decreases |names|
  {
    if names == [] then t else AddTags(AddTag(t, id, names[0]), id, names[1..])
  }

  function Unlink(t: Tables, id: string): Tables {
    t.(rows := set r | r in t.rows && r.status != id)
  }

  /** `replace_status_hashtags_in_connection`: a row for a missing status violates its foreign key. */
  function Replace(t: Tables, id: string, content: string): Option<Tables> {
    if id !in t.statuses && Extract(content) != [] then None
    else Some(AddTags(Unlink(t, id), id, Extract(content)))
  }

  /** `rest` is the error, if any, that the transaction meets in the rows not modelled here: a taken
      URI, media that cannot be attached, a poll. */
  datatype Op =
    | Insert(id: string, content: string, rest: Option<AppError>)
    | Update(id: string, content: string)
    | UpdateWithSnapshot(id: string, content: string)
    | UpdateWithSnapshotAndMedia(id: string, content: string, rest: Option<AppError>)
    | Delete(id: string)

  /** One transaction: on an error the tables are as before. */
  function Do(t: Tables, op: Op): (Tables, Result<(), AppError>) {
    match op
    case Insert(id, content, rest) =>
      if id in t.statuses then (t, Err(Database))
      else if rest.Some? then (t, Err(rest.value))
      else Reindex(t, t.(statuses := t.statuses[id := content]), id, content)
    case Update(id, content) =>
      Reindex(t, if id in t.statuses then t.(statuses := t.statuses[id := content]) else t, id, content)
    case UpdateWithSnapshot(id, content) =>
      if id !in t.statuses then (t, Err(NotFound))
      else Reindex(t, t.(statuses := t.statuses[id := content]), id, content)
    case UpdateWithSnapshotAndMedia(id, content, rest) =>
      if id !in t.statuses then (t, Err(NotFound))
      else if rest.Some? then (t, Err(rest.value))
      else (t.(statuses := t.statuses[id := content]), Ok(()))
    case Delete(id) => (Unlink(t, id).(statuses := t.statuses - {id}), Ok(()))
  }

  function Reindex(before: Tables, t: Tables, id: string, content: string): (Tables, Result<(), AppError>) {
    match Replace(t, id, content)
    case None => (before, Err(Database))
    case Some(u) => (u, Ok(()))
  }

  // ---------------------------------------------------------------------------
  // What indexing does
  // ---------------------------------------------------------------------------

  lemma AddTagLinks(t: Tables, id: string, name: string)
    requires Wf(t) && id in t.statuses && Lower(name) == name
    ensures var u := AddTag(t, id, name);
      && Wf(u) && u.statuses == t.statuses
      && IndexOf(u, id) == IndexOf(t, id) + {name}
      && forall other :: other != id ==> IndexOf(u, other) == IndexOf(t, other)
  {
    var e, u := EnsureTag(t, name), AddTag(t, id, name);
    EnsureTagIsNeutral(t, name);
    assert e.tags[name] == u.tags[name];
    forall other | other != id ensures IndexOf(u, other) == IndexOf(e, other) {}
    assert IndexOf(u, id) == IndexOf(e, id) + {name};
    forall r | r in u.rows ensures r.status in u.statuses && exists n :: n in u.tags && u.tags[n] == r.tag {
      if r !in e.rows { assert u.tags[name] == r.tag; }
    }
  }

  lemma EnsureTagIsNeutral(t: Tables, name: string)
    requires Wf(t) && Lower(name) == name
    ensures var e := EnsureTag(t, name);
      Wf(e) && name in e.tags && e.statuses == t.statuses && forall id :: IndexOf(e, id) == IndexOf(t, id)
  {
    var e := EnsureTag(t, name);
    forall r | r in e.rows ensures r.status in e.statuses && exists n :: n in e.tags && e.tags[n] == r.tag {
      var n :| n in t.tags && t.tags[n] == r.tag;
      assert e.tags[n] == r.tag;
    }
    forall id ensures IndexOf(e, id) == IndexOf(t, id) {
      if name !in t.tags {
        assert Row(id, t.nextId) !in t.rows;
      }
    }
  }

  function Names(names: seq<string>): set<string> {
    set n | n in names
  }

  lemma NamesCons(names: seq<string>)
    requires names != []
    ensures Names(names) == {names[0]} + Names(names[1..])
  {
    assert names == [names[0]] + names[1..];
  }

  lemma {:induction false} AddTagsLinks(t: Tables, id: string, names: seq<string>)
    requires Wf(t) && id in t.statuses && forall i :: 0 <= i < |names| ==> Lower(names[i]) == names[i]
    ensures var u := AddTags(t, id, names);
      && Wf(u) && u.statuses == t.statuses
      && IndexOf(u, id) == IndexOf(t, id) + Names(names)
      && forall other :: other != id ==> IndexOf(u, other) == IndexOf(t, other)
    decreases |names|
  {
    if names == [] {
      assert IndexOf(t, id) + Names(names) == IndexOf(t, id);
    } else {
      var first := AddTag(t, id, names[0]);
      AddTagLinks(t, id, names[0]);
      AddTagsLinks(first, id, names[1..]);
      NamesCons(names);
      assert IndexOf(t, id) + Names(names) == IndexOf(first, id) + Names(names[1..]);
    }
  }

  lemma UnlinkEmpties(t: Tables, id: string)
    requires Wf(t)
    ensures Wf(Unlink(t, id)) && IndexOf(Unlink(t, id), id) == {}
    ensures forall other :: other != id ==> IndexOf(Unlink(t, id), other) == IndexOf(t, other)
  {
  }

  /** Reindexing an existing status makes its rows exactly its tags and touches no other status. */
  lemma ReplaceIndexes(t: Tables, id: string, content: string)
    requires Wf(t) && id in t.statuses && t.statuses[id] == content
    ensures Replace(t, id, content).Some?
    ensures var u := Replace(t, id, content).value;
      && Wf(u) && u.statuses == t.statuses && Indexed(u, id)
      && forall other :: other != id ==> IndexOf(u, other) == IndexOf(t, other)
  {
    UnlinkEmpties(t, id);
    ExtractedAreTags(content);
    AddTagsLinks(Unlink(t, id), id, Extract(content));
  }

  lemma ContentChangeKeepsWf(t: Tables, id: string, content: string)
    requires Wf(t)
    ensures Wf(t.(statuses := t.statuses[id := content]))
    ensures forall x :: IndexOf(t.(statuses := t.statuses[id := content]), x) == IndexOf(t, x)
  {
  }

  /** Every operation but the media variant keeps the whole index in step with the content. */
  lemma StepKeepsIndex(t: Tables, op: Op)
    requires Wf(t) && AllIndexed(t) && !op.UpdateWithSnapshotAndMedia?
    ensures Wf(Do(t, op).0) && AllIndexed(Do(t, op).0)
    ensures Do(t, op).1.Err? ==> Do(t, op).0 == t
  {
    match op
    case Delete(id) =>
      UnlinkEmpties(t, id);
      var u := Do(t, op).0;
      forall x | x in u.statuses ensures Indexed(u, x) {
        assert Indexed(t, x) && IndexOf(u, x) == IndexOf(Unlink(t, id), x);
      }
    case Insert(id, content, _) => ReindexedStep(t, id, content, false);
    case Update(id, content) => ReindexedStep(t, id, content, true);
    case UpdateWithSnapshot(id, content) => ReindexedStep(t, id, content, false);
    case UpdateWithSnapshotAndMedia(_, _, _) =>
  }

  lemma ReindexedStep(t: Tables, id: string, content: string, update: bool)
    requires Wf(t) && AllIndexed(t)
    ensures id in t.statuses || !update ==>
      var mid := t.(statuses := t.statuses[id := content]);
      Replace(mid, id, content).Some? && Wf(Replace(mid, id, content).value) && AllIndexed(Replace(mid, id, content).value)
    ensures id !in t.statuses && update && Replace(t, id, content).Some? ==> Replace(t, id, content).value == t
  {
    if id in t.statuses || !update {
      var mid := t.(statuses := t.statuses[id := content]);
      ContentChangeKeepsWf(t, id, content);
      ReplaceIndexes(mid, id, content);
      var u := Replace(mid, id, content).value;
      forall x | x in u.statuses ensures Indexed(u, x) {
        if x != id { assert Indexed(t, x); }
      }
    } else if Extract(content) == [] {
      assert Unlink(t, id).rows == t.rows;
    }
  }

  function Run(t: Tables, ops: seq<Op>): Tables
    decreases |ops|
  {
    if ops == [] then t else Run(Do(t, ops[0]).0, ops[1..])
  }

  lemma {:induction false} RunKeepsIndex(t: Tables, ops: seq<Op>)
    requires Wf(t) && AllIndexed(t)
    requires forall i :: 0 <= i < |ops| ==> !ops[i].UpdateWithSnapshotAndMedia?
    ensures Wf(Run(t, ops)) && AllIndexed(Run(t, ops))
    decreases |ops|
  {
    if ops != [] {
      StepKeepsIndex(t, ops[0]);
      RunKeepsIndex(Do(t, ops[0]).0, ops[1..]);
    }
  }

  /** `update_status_with_edit_snapshot_and_media` does not reindex: the index stays in step exactly
      when the new content has the tags of the old. */
  lemma MediaUpdateKeepsIndexIff(t: Tables, id: string, content: string)
    requires Wf(t) && AllIndexed(t) && id in t.statuses
    ensures AllIndexed(Do(t, UpdateWithSnapshotAndMedia(id, content, None)).0)
      <==> TagSet(content) == TagSet(t.statuses[id])
  {
    var u := Do(t, UpdateWithSnapshotAndMedia(id, content, None)).0;
    ContentChangeKeepsWf(t, id, content);
    assert Indexed(t, id);
    if TagSet(content) == TagSet(t.statuses[id]) {
      forall x | x in u.statuses ensures Indexed(u, x) { assert Indexed(t, x); }
    } else {
      assert !Indexed(u, id);
    }
  }

  lemma PostingIndexes(t: Tables, id: string, content: string)
    requires Wf(t) && id !in t.statuses
    ensures var posted := Do(t, Insert(id, content, None)).0;
      posted.statuses == t.statuses[id := content] && IndexOf(posted, id) == TagSet(content)
  {
    ContentChangeKeepsWf(t, id, content);
    ReplaceIndexes(t.(statuses := t.statuses[id := content]), id, content);
  }

  lemma TagsOfExamples()
    ensures TagSet("#a") == {"a"} && TagSet("") == {}
  {
    OneTagScanned();
    CollectOne([], "a");
    assert [] + ["a"] == ["a"];
    assert Scan("", 0) == [];
  }

  /** A status posted as "#a" and then emptied by an edit with media stays listed under its old tag. */
  lemma MediaEditLeavesStaleTag()
    ensures var posted := Do(Tables(map[], map[], {}, 0), Insert("s", "#a", None)).0;
      var edited := Do(posted, UpdateWithSnapshotAndMedia("s", "", None)).0;
      edited.statuses["s"] == "" && TagSet("") == {} && IndexOf(edited, "s") == {"a"}
  {
    var start := Tables(map[], map[], {}, 0);
    PostingIndexes(start, "s", "#a");
    TagsOfExamples();
    StaleAfterMediaEdit(Do(start, Insert("s", "#a", None)).0, "s", "");
  }

  lemma StaleAfterMediaEdit(t: Tables, id: string, content: string)
    requires id in t.statuses
    ensures var edited := Do(t, UpdateWithSnapshotAndMedia(id, content, None)).0;
      edited.statuses[id] == content && IndexOf(edited, id) == IndexOf(t, id)
  {
  }

  lemma OneTagScanned()
    ensures Scan("#a", 0) == ["a"]
  {
    assert "#a"[1..] == "a" && "a"[1..] == "";
    assert [LowerChar('a')] + "" == "a";
    assert ReadTag("a") == ("a", 1);
    ScanStep("#a", 0, ["a"], 2);
    assert Scan("#a", 2) == [];
  }

  // ---------------------------------------------------------------------------
  // Back-filling
  // ---------------------------------------------------------------------------

  const BATCH_SIZE: nat := 250

  predicate After(last: Option<string>, id: string) {
    last.None? || Less(last.value, id)
  }

  /** The statuses the back-fill query selects after `last`. */
  function Missing(t: Tables, last: Option<string>): set<string> {
    set id | id in t.statuses && After(last, id) && '#' in t.statuses[id] && forall r :: r in t.rows ==> r.status != id
  }

  method Least(ids: set<string>) returns (m: string)
    requires ids != {}
    ensures m in ids && forall x :: x in ids && x != m ==> Less(m, x)
  {
    m :| m in ids;
    var rest := ids - {m};
    while rest != {}
      invariant rest <= ids && m in ids && m !in rest
      invariant forall x :: x in ids - rest && x != m ==> Less(m, x)
      decreases rest
    {
      var x :| x in rest;
      LessTotal(m, x);
      ghost var before := m;
      if Less(x, m) {
        forall y | y in ids - rest && y != m ensures Less(x, y) { LessTransitive(x, m, y); }
        m := x;
      }
      rest := rest - {x};
      assert forall y :: y in ids - rest && y != m ==> y == x || y == before || y in ids - (rest + {x});
    }
  }

  /** `ORDER BY id ASC LIMIT ?`: in ascending order, as many as the limit allows, and nothing left out
      that would come before the last. */
  method SelectBatch(ids: set<string>, limit: nat) returns (batch: seq<string>)
    ensures |batch| <= limit && forall x :: x in batch ==> x in ids
    ensures forall i, j :: 0 <= i < j < |batch| ==> Less(batch[i], batch[j])
    ensures |batch| < limit ==> forall x :: x in ids ==> x in batch
    ensures forall x, y :: x in ids && x !in batch && y in batch ==> Less(y, x)
  {
    batch := [];
    var rest := ids;
    while rest != {} && |batch| < limit
      invariant rest <= ids && |batch| <= limit
      invariant forall x :: x in ids <==> x in batch || x in rest
      invariant forall x, y :: x in batch && y in rest ==> Less(x, y)
      invariant forall i, j :: 0 <= i < j < |batch| ==> Less(batch[i], batch[j])
      decreases rest
    {
      var m := Least(rest);
      batch := batch + [m];
      rest := rest - {m};
    }
  }

  class Database {
    var t: Tables

    method IndexStatus(id: string, content: string)
      modifies this
      ensures t == AddTags(old(t), id, Extract(content))
    {
      var hashtags := ExtractHashtags(content);
      var i := 0;
      while i < |hashtags|
        invariant 0 <= i <= |hashtags|
        invariant AddTags(old(t), id, hashtags) == AddTags(t, id, hashtags[i..])
      {
        assert hashtags[i..][0] == hashtags[i] && hashtags[i..][1..] == hashtags[i + 1..];
        t := EnsureTag(t, hashtags[i]);
        var tagId := t.tags[Lower(hashtags[i])];
        t := t.(rows := t.rows + {Row(id, tagId)});
        i := i + 1;
      }
    }

    /** Indexes one selected status: it had no rows, and gets exactly its tags. */
    method IndexMissing(id: string)
      requires Wf(t) && id in t.statuses && IndexOf(t, id) == {}
      modifies this
      ensures Wf(t) && t.statuses == old(t).statuses && Indexed(t, id)
      ensures forall other :: other != id ==> IndexOf(t, other) == IndexOf(old(t), other)
    {
      ExtractedAreTags(t.statuses[id]);
      AddTagsLinks(t, id, Extract(t.statuses[id]));
      IndexStatus(id, t.statuses[id]);
    }

    method IndexBatch(batch: seq<string>)
      requires Wf(t) && forall x :: x in batch ==> x in t.statuses && IndexOf(t, x) == {}
      requires forall i, j :: 0 <= i < j < |batch| ==> batch[i] != batch[j]
      modifies this
      ensures Wf(t) && t.statuses == old(t).statuses
      ensures forall x :: x in batch ==> Indexed(t, x)
      ensures forall x :: x !in batch ==> IndexOf(t, x) == IndexOf(old(t), x)
    {
      var i := 0;
      while i < |batch|
        invariant 0 <= i <= |batch|
        invariant Wf(t) && t.statuses == old(t).statuses
        invariant forall x :: x in batch[..i] ==> x in t.statuses && Indexed(t, x)
        invariant forall x :: x !in batch[..i] ==> IndexOf(t, x) == IndexOf(old(t), x)
      {
        assert batch[..i + 1] == batch[..i] + [batch[i]];
        IndexMissing(batch[i]);
        i := i + 1;
      }
      assert batch[..|batch|] == batch;
    }

    /** `backfill_missing_status_hashtags`: terminates, indexes every status that had no index rows,
        and leaves every other status's rows alone. */
    method Backfill()
      requires Wf(t)
      modifies this
      ensures Wf(t) && t.statuses == old(t).statuses
      ensures forall id :: id in t.statuses && IndexOf(old(t), id) == {} ==> Indexed(t, id)
      ensures forall id :: id in t.statuses && IndexOf(old(t), id) != {} ==> IndexOf(t, id) == IndexOf(old(t), id)
    {
      var last: Option<string> := None;
      while true
        invariant Wf(t) && Settled(old(t), t, last)
        decreases |set id | id in t.statuses && After(last, id)|
      {
        ghost var before := t;
        MissingIff(t, last);
        var batch := SelectBatch(Missing(t, last), BATCH_SIZE);
        if batch == [] {
          break;
        }
        AscendingIsDistinct(batch);
        IndexBatch(batch);
        BatchAdvances(t.statuses, last, batch[|batch| - 1]);
        BatchSettles(old(t), before, t, last, batch);
        last := Some(batch[|batch| - 1]);
      }
    }
  }

  /** Up to `last` every status without rows has been indexed; nothing else has changed. */
  ghost predicate Settled(start: Tables, t: Tables, last: Option<string>) {
    && t.statuses == start.statuses
    && (forall id :: id in t.statuses && (After(last, id) || IndexOf(start, id) != {}) ==> IndexOf(t, id) == IndexOf(start, id))
    && (forall id :: id in t.statuses && !After(last, id) && IndexOf(start, id) == {} ==> Indexed(t, id))
  }

  /** What the query leaves out needs no rows: indexed already, or no tags at all. */
  lemma MissingIff(t: Tables, last: Option<string>)
    requires Wf(t)
    ensures forall id :: id in Missing(t, last) ==> id in t.statuses && After(last, id) && IndexOf(t, id) == {}
    ensures forall id :: id in t.statuses && After(last, id) && IndexOf(t, id) == {} && id !in Missing(t, last) ==> Indexed(t, id)
  {
    forall id | id in t.statuses && After(last, id) && IndexOf(t, id) == {} && id !in Missing(t, last)
      ensures Indexed(t, id)
    {
      ExtractedAreTags(t.statuses[id]);
      forall r | r in t.rows ensures r.status != id {
        var n :| n in t.tags && t.tags[n] == r.tag;
        assert r.status == id ==> n in IndexOf(t, id);
      }
      assert '#' !in t.statuses[id];
    }
  }

  lemma AscendingIsDistinct(batch: seq<string>)
    requires forall i, j :: 0 <= i < j < |batch| ==> Less(batch[i], batch[j])
    ensures forall i, j :: 0 <= i < j < |batch| ==> batch[i] != batch[j]
    ensures batch != [] ==> forall x :: x in batch && x != batch[|batch| - 1] ==> Less(x, batch[|batch| - 1])
  {
    forall i, j | 0 <= i < j < |batch| ensures batch[i] != batch[j] { LessIrreflexive(batch[i]); }
  }

  lemma BatchAdvances(statuses: map<string, string>, last: Option<string>, next: string)
    requires next in statuses && After(last, next)
    ensures |set id | id in statuses && After(Some(next), id)| < |set id | id in statuses && After(last, id)|
  {
    var fewer := set id | id in statuses && After(Some(next), id);
    var more := set id | id in statuses && After(last, id);
    forall id | id in fewer ensures id in more {
      if last.Some? { LessTransitive(last.value, next, id); }
    }
    LessIrreflexive(next);
    assert next in more - fewer;
    SmallerSet(fewer, more);
  }

  lemma {:induction false} SmallerSet(a: set<string>, b: set<string>)
    requires a < b
    ensures |a| < |b|
  {
    if a == {} {
      assert b != {};
    } else {
      var x :| x in a;
      SmallerSet(a - {x}, b - {x});
    }
  }

  lemma BatchSettles(start: Tables, before: Tables, t: Tables, last: Option<string>, batch: seq<string>)
    requires Wf(before) && Settled(start, before, last) && t.statuses == start.statuses && batch != []
    requires forall x :: x in batch ==> x in Missing(before, last) && Indexed(t, x)
    requires forall x :: x !in batch ==> IndexOf(t, x) == IndexOf(before, x)
    requires forall x :: x in Missing(before, last) && x !in batch ==> Less(batch[|batch| - 1], x)
    requires forall x :: x in batch && x != batch[|batch| - 1] ==> Less(x, batch[|batch| - 1])
    ensures Settled(start, t, Some(batch[|batch| - 1]))
  {
    MissingIff(before, last);
    var top := batch[|batch| - 1];
    forall id | id in t.statuses && !After(Some(top), id) && IndexOf(start, id) == {} ensures Indexed(t, id) {
      if id !in batch { assert Indexed(before, id); }
    }
    forall id | id in t.statuses && (After(Some(top), id) || IndexOf(start, id) != {})
      ensures IndexOf(t, id) == IndexOf(start, id)
    {
      if id in batch && After(Some(top), id) {
        LessIrreflexive(top);
        if id != top { LessTransitive(top, id, top); }
        assert false;
      }
      assert top in batch && After(last, top);
      if After(Some(top), id) && last.Some? { LessTransitive(last.value, top, id); }
    }
  }
}
