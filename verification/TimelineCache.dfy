/** The volatile timeline cache: bounded to the newest `max_items` statuses, with a TTL. */
module TimelineCache {
  import opened Wrappers
  import opened Ordering

  /** A row of `timeline_statuses`; its primary key is the map key, `uri` is UNIQUE. */
  datatype Cached = Cached(uri: string, account: string, createdAt: int, body: string, insertedAt: int)

  type Rows = map<string, Cached>

  const TTL_MS: int := 7 * 24 * 60 * 60 * 1000

  function StampOf(rows: Rows, id: string): Stamp
    requires id in rows
  {
    Stamp(rows[id].createdAt, id)
  }

  function Stamps(rows: Rows): set<Stamp> {
    set id | id in rows :: StampOf(rows, id)
  }

  /** Another row already holds the URI, so the upsert by id violates the UNIQUE column. */
  predicate UriTaken(rows: Rows, id: string, uri: string) {
    exists other :: other in rows && other != id && rows[other].uri == uri
  }

  function PruneExpired(rows: Rows, now: int): Rows {
    map id | id in rows && rows[id].insertedAt >= now - TTL_MS :: rows[id]
  }

  function KeepNewest(rows: Rows, n: nat): Rows {
    map id | id in rows && StampOf(rows, id) in Top(Stamps(rows), n) :: rows[id]
  }

  /** `insert` as one step: a rejected upsert leaves the cache alone, an accepted one is followed
      by the TTL prune and the size limit. */
  function Insert(rows: Rows, n: nat, id: string, c: Cached, now: int): Rows {
    if UriTaken(rows, id, c.uri) then rows
    else KeepNewest(PruneExpired(rows[id := c], now), n)
  }

  function WithoutUri(rows: Rows, uri: string): Rows {
    map id | id in rows && rows[id].uri != uri :: rows[id]
  }

  class Cache {
    const maxItems: nat
    var rows: Rows

    constructor (maxItems: nat)
      ensures rows == map[] && this.maxItems >= 1
      ensures maxItems >= 1 ==> this.maxItems == maxItems
    {
      this.maxItems := if maxItems < 1 then 1 else maxItems;
      rows := map[];
    }

    method PruneOld(now: int)
      modifies this`rows
      ensures rows == PruneExpired(old(rows), now)
    {
      rows := map id | id in rows && rows[id].insertedAt >= now - TTL_MS :: rows[id];
    }

    method InsertStatus(id: string, uri: string, account: string, createdAt: int, body: string, now: int)
      modifies this`rows
      ensures rows == Insert(old(rows), maxItems, id, Cached(uri, account, createdAt, body, now), now)
    {
      if exists other :: other in rows && other != id && rows[other].uri == uri {
        return;
      }
      rows := rows[id := Cached(uri, account, createdAt, body, now)];
      PruneOld(now);
      var newest := Top(Stamps(rows), maxItems);
      rows := map k | k in rows && StampOf(rows, k) in newest :: rows[k];
    }

    method Get(id: string, now: int) returns (r: Option<Cached>)
      modifies this`rows
      ensures rows == PruneExpired(old(rows), now)
      ensures r == if id in old(rows) && now - old(rows)[id].insertedAt <= TTL_MS then Some(old(rows)[id]) else None
    {
      PruneOld(now);
      r := if id in rows then Some(rows[id]) else None;
    }

    method GetByUri(uri: string, now: int) returns (r: Option<Cached>)
      modifies this`rows
      ensures rows == PruneExpired(old(rows), now)
      ensures r.Some? ==> exists id :: id in rows && r == Some(rows[id]) && rows[id].uri == uri
      ensures r.None? ==> forall id :: id in rows ==> rows[id].uri != uri
      ensures r.None? <==> forall id :: id in old(rows) && old(rows)[id].uri == uri ==> now - old(rows)[id].insertedAt > TTL_MS
    {
      PruneOld(now);
      var hits := set id | id in rows && rows[id].uri == uri;
      if hits == {} {
        forall id | id in old(rows) && old(rows)[id].uri == uri ensures now - old(rows)[id].insertedAt > TTL_MS {
          assert id !in hits;
        }
        return None;
      }
      var id :| id in hits;
      r := Some(rows[id]);
    }

    method Remove(id: string)
      modifies this`rows
      ensures rows == old(rows) - {id}
    {
      rows := rows - {id};
    }

    method RemoveByUri(uri: string)
      modifies this`rows
      ensures rows == WithoutUri(old(rows), uri)
    {
      rows := map id | id in rows && rows[id].uri != uri :: rows[id];
    }
  }

  // ---------------------------------------------------------------------------
  // What every step keeps
  // ---------------------------------------------------------------------------

  predicate UniqueUris(rows: Rows) {
    forall a, b :: a in rows && b in rows && rows[a].uri == rows[b].uri ==> a == b
  }

  lemma {:induction false} StampsCount(rows: Rows)
    ensures |Stamps(rows)| == |rows|
    decreases |rows|
  {
    if rows != map[] {
      var id :| id in rows;
      var rest := rows - {id};
      StampsCount(rest);
      assert Stamps(rows) == Stamps(rest) + {StampOf(rows, id)} by {
        forall k | k in rest ensures StampOf(rest, k) == StampOf(rows, k) {}
        forall x | x in Stamps(rows) && x.id != id ensures x in Stamps(rest) {
          assert x.id in rest && StampOf(rest, x.id) == x;
        }
        forall x | x in Stamps(rest) ensures x in Stamps(rows) {
          assert x.id in rows && StampOf(rows, x.id) == x;
        }
      }
      assert rest.Keys == rows.Keys - {id} && |rest| == |rest.Keys| && |rows| == |rows.Keys|;
    }
  }

  lemma KeepNewestStamps(rows: Rows, n: nat)
    ensures Stamps(KeepNewest(rows, n)) == Top(Stamps(rows), n)
  {
    forall x | x in Top(Stamps(rows), n) ensures x in Stamps(KeepNewest(rows, n)) {
      assert x.id in rows && StampOf(rows, x.id) == x;
      assert x.id in KeepNewest(rows, n);
    }
  }

  /** The cache never holds more than `max_items` rows, nor two rows for one URI. */
  lemma InsertKeepsBounds(rows: Rows, n: nat, id: string, c: Cached, now: int)
    requires UniqueUris(rows) && |rows| <= n
    ensures UniqueUris(Insert(rows, n, id, c, now)) && |Insert(rows, n, id, c, now)| <= n
  {
    if !UriTaken(rows, id, c.uri) {
      var live := PruneExpired(rows[id := c], now);
      KeepNewestStamps(live, n);
      TopSize(Stamps(live), n);
      StampsCount(KeepNewest(live, n));
    }
  }

  /** What an insert does to any other row: one that has outlived the week goes, and one that has not
      goes only if as many rows as the cache holds are ahead of it. Rows that stay are unchanged. */
  lemma InsertDropsOnlyOldOrLast(rows: Rows, n: nat, id: string, c: Cached, now: int, k: string)
    requires k in rows && k != id && !UriTaken(rows, id, c.uri)
    ensures var after := Insert(rows, n, id, c, now);
      && (k in after ==> after[k] == rows[k] && now - rows[k].insertedAt <= 7 * 24 * 3600 * 1000)
      && (k !in after && now - rows[k].insertedAt <= 7 * 24 * 3600 * 1000 ==>
            |AheadOf(Stamps(after), Stamp(rows[k].createdAt, k))| == n)
  {
    var live := PruneExpired(rows[id := c], now);
    if k in live {
      KeepNewestStamps(live, n);
      assert StampOf(live, k) in Stamps(live);
      if k !in KeepNewest(live, n) {
        CutOffIsBehindKept(Stamps(live), n, StampOf(live, k));
      }
    }
  }

  /** The status itself is in the cache afterwards, as inserted, unless that many rows are ahead of it;
      a URI held under another id leaves the cache alone. */
  lemma InsertStores(rows: Rows, n: nat, id: string, c: Cached, now: int)
    requires c.insertedAt == now
    ensures var after := Insert(rows, n, id, c, now);
      && (UriTaken(rows, id, c.uri) ==> after == rows)
      && (!UriTaken(rows, id, c.uri) && id in after ==> after[id] == c)
      && (!UriTaken(rows, id, c.uri) && id !in after ==> |AheadOf(Stamps(after), Stamp(c.createdAt, id))| == n)
  {
    if !UriTaken(rows, id, c.uri) {
      var live := PruneExpired(rows[id := c], now);
      KeepNewestStamps(live, n);
      assert id in live && StampOf(live, id) in Stamps(live);
      if id !in KeepNewest(live, n) {
        CutOffIsBehindKept(Stamps(live), n, StampOf(live, id));
      }
    }
  }

  /** Removing a URI removes one row at most, and frees the URI for an insert under any id. */
  lemma RemovalFreesUri(rows: Rows, uri: string)
    requires UniqueUris(rows)
    ensures UniqueUris(WithoutUri(rows, uri)) && forall id :: !UriTaken(WithoutUri(rows, uri), id, uri)
    ensures |rows| == |WithoutUri(rows, uri)| + (if exists id :: id in rows && rows[id].uri == uri then 1 else 0)
  {
    var kept := WithoutUri(rows, uri);
    if exists id :: id in rows && rows[id].uri == uri {
      var id :| id in rows && rows[id].uri == uri;
      assert kept.Keys == rows.Keys - {id};
    } else {
      assert kept.Keys == rows.Keys;
    }
    assert |kept| == |kept.Keys| && |rows| == |rows.Keys|;
  }

  // ---------------------------------------------------------------------------
  // Streaming eviction is batch selection
  // ---------------------------------------------------------------------------

  /** One call of `insert` at clock reading `now`. */
  datatype Call = Call(id: string, uri: string, account: string, createdAt: int, body: string, now: int)

  function RowFor(c: Call): Cached {
    Cached(c.uri, c.account, c.createdAt, c.body, c.now)
  }

  function Run(calls: seq<Call>, n: nat): Rows {
    if calls == [] then map[]
    else
      var last := calls[|calls| - 1];
      Insert(Run(calls[..|calls| - 1], n), n, last.id, RowFor(last), last.now)
  }

  function AllStamps(calls: seq<Call>): set<Stamp> {
    set i | 0 <= i < |calls| :: Stamp(calls[i].createdAt, calls[i].id)
  }

  predicate DistinctCalls(calls: seq<Call>) {
    forall i, j :: 0 <= i < j < |calls| ==> calls[i].id != calls[j].id && calls[i].uri != calls[j].uri
  }

  predicate WithinTtl(calls: seq<Call>) {
    forall i, j :: 0 <= i < |calls| && 0 <= j < |calls| ==> calls[i].now >= calls[j].now - TTL_MS
  }

  /** Every cached row is the unchanged row of some call. */
  ghost predicate HoldsCalls(rows: Rows, calls: seq<Call>) {
    forall id :: id in rows ==> exists i :: 0 <= i < |calls| && calls[i].id == id && rows[id] == RowFor(calls[i])
  }

  lemma InsertFresh(rows: Rows, n: nat, calls: seq<Call>, last: Call)
    requires HoldsCalls(rows, calls) && DistinctCalls(calls + [last]) && WithinTtl(calls + [last])
    ensures !UriTaken(rows, last.id, last.uri) && last.id !in rows
    ensures PruneExpired(rows[last.id := RowFor(last)], last.now) == rows[last.id := RowFor(last)]
    ensures HoldsCalls(rows[last.id := RowFor(last)], calls + [last])
  {
    var all := calls + [last];
    assert all[|calls|] == last;
    forall id | id in rows ensures id != last.id && rows[id].uri != last.uri && rows[id].insertedAt >= last.now - TTL_MS {
      var i :| 0 <= i < |calls| && calls[i].id == id && rows[id] == RowFor(calls[i]);
      assert all[i] == calls[i];
    }
    var added := rows[last.id := RowFor(last)];
    forall id | id in added ensures exists i :: 0 <= i < |all| && all[i].id == id && added[id] == RowFor(all[i]) {
      if id in rows {
        var i :| 0 <= i < |calls| && calls[i].id == id && rows[id] == RowFor(calls[i]);
        assert all[i] == calls[i];
      } else {
        assert added[id] == RowFor(all[|calls|]);
      }
    }
  }

  /** After any inserts with distinct ids and URIs, none of them expired, the cache holds exactly
      the `max_items` greatest inserted rows under (created_at, id), each as it was inserted. */
  lemma {:induction false} StreamingIsBatch(calls: seq<Call>, n: nat)
    requires DistinctCalls(calls) && WithinTtl(calls)
    ensures Stamps(Run(calls, n)) == Top(AllStamps(calls), n)
    ensures HoldsCalls(Run(calls, n), calls)
    decreases |calls|
  {
    if calls == [] {
      assert Stamps(map[]) == {};
    } else {
      var init, last := calls[..|calls| - 1], calls[|calls| - 1];
      assert calls == init + [last];
      StreamingIsBatch(init, n);
      var rows := Run(init, n);
      InsertFresh(rows, n, init, last);
      InsertStamps(rows, n, last);
      AllStampsSnoc(init, last);
      TopStreams(AllStamps(init), Stamp(last.createdAt, last.id), n);
    }
  }

  lemma InsertStamps(rows: Rows, n: nat, c: Call)
    requires !UriTaken(rows, c.id, c.uri) && c.id !in rows
    requires PruneExpired(rows[c.id := RowFor(c)], c.now) == rows[c.id := RowFor(c)]
    ensures Stamps(Insert(rows, n, c.id, RowFor(c), c.now)) == Top(Stamps(rows) + {Stamp(c.createdAt, c.id)}, n)
  {
    var added, x := rows[c.id := RowFor(c)], Stamp(c.createdAt, c.id);
    KeepNewestStamps(added, n);
    assert Stamps(added) == Stamps(rows) + {x} by {
      forall id | id in rows ensures StampOf(added, id) == StampOf(rows, id) {}
      assert StampOf(added, c.id) == x;
    }
  }

  lemma AllStampsSnoc(init: seq<Call>, last: Call)
    ensures AllStamps(init + [last]) == AllStamps(init) + {Stamp(last.createdAt, last.id)}
  {
    var all := init + [last];
    assert all[|init|] == last;
    assert forall i :: 0 <= i < |init| ==> all[i] == init[i];
    forall s | s in AllStamps(init) ensures s in AllStamps(all) {
      var i :| 0 <= i < |init| && s == Stamp(init[i].createdAt, init[i].id);
      assert s == Stamp(all[i].createdAt, all[i].id);
    }
  }

  lemma CutToOne(s: set<Stamp>, first: Stamp)
    requires first in s && forall x :: x in s && x != first ==> Ahead(first, x)
    ensures Top(s, 1) == {first}
  {
    forall x | x in s ensures x in Top(s, 1) <==> x == first {
      AheadIsStrictTotal(first, x, first);
      if x == first {
        forall y | y in s ensures !Ahead(y, first) { AheadIsStrictTotal(first, y, first); }
        assert AheadOf(s, first) == {};
      } else {
        assert first in AheadOf(s, x);
      }
    }
  }

  lemma AfterTwo(a: Call, b: Call)
    requires a.id != b.id && a.uri != b.uri && a.createdAt > b.createdAt && a.now == b.now
    ensures Run([a, b], 1) == map[a.id := RowFor(a)]
  {
    var calls := [a, b];
    StreamingIsBatch(calls, 1);
    var rows, x, y := Run(calls, 1), Stamp(a.createdAt, a.id), Stamp(b.createdAt, b.id);
    assert AllStamps(calls) == {x, y} by {
      assert Stamp(calls[0].createdAt, calls[0].id) == x && Stamp(calls[1].createdAt, calls[1].id) == y;
    }
    CutToOne({x, y}, x);
    assert x in Stamps(rows);
    forall id | id in rows ensures id == a.id { assert StampOf(rows, id) in Stamps(rows); }
  }

  /** Distinct ids are needed: re-inserting `a` with an older date keeps the place that it took
      from `b`, although `b` is now the newer of the two. */
  lemma ReinsertionForgets(a: Call, b: Call, older: Call)
    requires a.id != b.id && a.uri != b.uri && a.createdAt > b.createdAt > older.createdAt
    requires older.id == a.id && older.uri == a.uri && a.now == b.now == older.now
    ensures Run([a, b, older], 1) == map[a.id := RowFor(older)]
    ensures Ahead(Stamp(b.createdAt, b.id), Stamp(older.createdAt, older.id))
  {
    AfterTwo(a, b);
    assert [a, b, older][..2] == [a, b];
    var rows := (map[a.id := RowFor(a)])[a.id := RowFor(older)];
    assert rows == map[a.id := RowFor(older)];
    assert PruneExpired(rows, older.now) == rows;
    var x := StampOf(rows, a.id);
    assert Stamps(rows) == {x};
    CutToOne({x}, x);
  }
}
