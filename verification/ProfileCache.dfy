/** The profile cache: rows expire after a TTL, but are deleted at most once a minute. */
module ProfileCache {
  import opened Wrappers

  const PRUNE_INTERVAL_MS: int := 60 * 1000
  const I64_MAX: int := 0x7FFF_FFFF_FFFF_FFFF
  const I64_MIN: int := -0x8000_0000_0000_0000

  datatype Fields = Fields(
    displayName: Option<string>, note: Option<string>, avatarUrl: Option<string>, headerUrl: Option<string>,
    publicKeyPem: string, inboxUri: string, outboxUri: Option<string>,
    followersCount: Option<nat>, followingCount: Option<nat>)

  /** A row of `profiles`; its primary key, the address, is the map key. */
  datatype Profile = Profile(uri: string, fields: Fields, fetchedAt: int)

  type Rows = map<string, Profile>

  /** The actor object of an Update: which members it has, and what they hold. A public key or an
      inbox that is missing or malformed is None. */
  datatype ActorObject = ActorObject(
    id: Option<string>, name: Option<Option<string>>, note: Option<Option<string>>,
    icon: Option<Option<string>>, image: Option<Option<string>>, publicKeyPem: Option<string>,
    inbox: Option<string>, outbox: Option<Option<string>>,
    followersCount: Option<Option<nat>>, followingCount: Option<Option<nat>>)

  function Patch(f: Fields, o: ActorObject): Fields {
    Fields(
      o.name.UnwrapOr(f.displayName), o.note.UnwrapOr(f.note), o.icon.UnwrapOr(f.avatarUrl),
      o.image.UnwrapOr(f.headerUrl), o.publicKeyPem.UnwrapOr(f.publicKeyPem), o.inbox.UnwrapOr(f.inboxUri),
      o.outbox.UnwrapOr(f.outboxUri), o.followersCount.UnwrapOr(f.followersCount),
      o.followingCount.UnwrapOr(f.followingCount))
  }

  /** The rows not yet expired. */
  function Live(rows: Rows, ttl: nat, now: int): Rows {
    map a | a in rows && rows[a].fetchedAt >= now - ttl :: rows[a]
  }

  function SaturatingSub(a: int, b: int): int {
    if a - b > I64_MAX then I64_MAX else if a - b < I64_MIN then I64_MIN else a - b
  }

  predicate PruneDue(lastPrune: int, now: int) {
    !(lastPrune > 0 && SaturatingSub(now, lastPrune) < PRUNE_INTERVAL_MS)
  }

  function PruneIfNeeded(rows: Rows, ttl: nat, lastPrune: int, now: int): Rows {
    if PruneDue(lastPrune, now) then Live(rows, ttl, now) else rows
  }

  /** The live rows of an actor. */
  function ByUri(rows: Rows, ttl: nat, uri: string, now: int): Rows {
    map a | a in rows && rows[a].uri == uri && rows[a].fetchedAt >= now - ttl :: rows[a]
  }

  /** `ORDER BY fetched_at_ms DESC LIMIT 1`: the newest row, ties settled by the matching rows alone. */
  type Picker = Rows -> string

  ghost predicate PicksNewest(pick: Picker) {
    forall m: Rows :: m != map[] ==> pick(m) in m && forall a :: a in m ==> m[a].fetchedAt <= m[pick(m)].fetchedAt
  }

  function Refreshed(hits: Rows, o: ActorObject, now: int): Rows {
    map a | a in hits :: Profile(hits[a].uri, Patch(hits[a].fields, o), now)
  }

  /** The rows an Update rewrites: none unless the actor is cached, the payload has an object, and
      that object is the actor itself. */
  function Rewritten(rows: Rows, ttl: nat, uri: string, o: Option<ActorObject>, now: int): Rows {
    if o.None? || (o.value.id.Some? && o.value.id.value != uri) then map[]
    else Refreshed(ByUri(rows, ttl, uri, now), o.value, now)
  }

  class Cache {
    const ttl: nat
    const pick: Picker
    var rows: Rows
    var lastPrune: int

    constructor (ttlSeconds: nat, pick: Picker)
      ensures rows == map[] && lastPrune == 0 && this.pick == pick
      ensures ttl <= I64_MAX && (ttlSeconds * 1000 <= I64_MAX ==> ttl == ttlSeconds * 1000)
    {
      ttl := (if ttlSeconds < I64_MAX / 1000 then ttlSeconds else I64_MAX / 1000) * 1000;
      this.pick := pick;
      rows := map[];
      lastPrune := 0;
    }

    method PruneExpiredIfNeeded(now: int)
      modifies this`rows, this`lastPrune
      ensures rows == PruneIfNeeded(old(rows), ttl, old(lastPrune), now)
      ensures lastPrune == if PruneDue(old(lastPrune), now) then now else old(lastPrune)
    {
      if lastPrune > 0 && SaturatingSub(now, lastPrune) < PRUNE_INTERVAL_MS {
        return;
      }
      rows := Live(rows, ttl, now);
      lastPrune := now;
    }

    method Get(address: string, now: int, readAt: int) returns (r: Option<Profile>)
      modifies this`rows, this`lastPrune
      ensures rows == PruneIfNeeded(old(rows), ttl, old(lastPrune), now)
      ensures r == Answer(old(rows), ttl, pick, old(lastPrune), GetOp(address, now, readAt))
    {
      PruneExpiredIfNeeded(now);
      var cutoff := readAt - ttl;
      r := if address in rows && rows[address].fetchedAt >= cutoff then Some(rows[address]) else None;
    }

    method GetByUri(uri: string, now: int, readAt: int) returns (r: Option<Profile>)
      requires PicksNewest(pick)
      modifies this`rows, this`lastPrune
      ensures rows == PruneIfNeeded(old(rows), ttl, old(lastPrune), now)
      ensures r == Answer(old(rows), ttl, pick, old(lastPrune), GetByUriOp(uri, now, readAt))
    {
      PruneExpiredIfNeeded(now);
      var hits := ByUri(rows, ttl, uri, readAt);
      r := if hits == map[] then None else Some(hits[pick(hits)]);
    }

    method Insert(address: string, p: Profile, now: int)
      modifies this`rows, this`lastPrune
      ensures rows == PruneIfNeeded(old(rows)[address := p], ttl, old(lastPrune), now)
      ensures lastPrune == if PruneDue(old(lastPrune), now) then now else old(lastPrune)
    {
      rows := rows[address := p];
      PruneExpiredIfNeeded(now);
    }

    /** Rewrites the actor's rows one insert at a time; each insert may prune. */
    method UpdateFromActivity(uri: string, o: Option<ActorObject>, now: int)
      modifies this`rows, this`lastPrune
      ensures rows == After(old(rows), ttl, old(lastPrune), UpdateOp(uri, o, now))
      ensures lastPrune == if Rewritten(old(rows), ttl, uri, o, now) != map[] && PruneDue(old(lastPrune), now) then now else old(lastPrune)
    {
      ghost var before, lastBefore := rows, lastPrune;
      var hits := ByUri(rows, ttl, uri, now);
      if hits == map[] {
        assert Rewritten(before, ttl, uri, o, now) == map[];
        return;
      }
      if o.None? || (o.value.id.Some? && o.value.id.value != uri) {
        return;
      }
      var updated := Refreshed(hits, o.value, now);
      var done := {};
      while done != updated.Keys
        invariant done <= updated.Keys
        invariant rows == Partial(before, ttl, lastBefore, now, updated, done)
        invariant lastPrune == if done != {} && PruneDue(lastBefore, now) then now else lastBefore
        decreases updated.Keys - done
      {
        assert exists a :: a in updated.Keys && a !in done;
        var address :| address in updated.Keys && address !in done;
        PartialStep(before, ttl, lastBefore, now, updated, done, address);
        Insert(address, updated[address], now);
        done := done + {address};
      }
      assert (map a | a in updated && a in done :: updated[a]) == updated;
      PruneOfRefreshed(before, ttl, lastBefore, now, updated);
    }
  }

  /** The rows once the members of `done` have been rewritten. */
  function Partial(before: Rows, ttl: nat, last: int, now: int, updated: Rows, done: set<string>): Rows {
    if done == {} then before
    else PruneIfNeeded(before, ttl, last, now) + map a | a in updated && a in done :: updated[a]
  }

  /** Expired rows are deleted when none were in the last minute, or never, and only then. */
  lemma PrunesOnceAMinute(rows: Rows, ttl: nat, lastPrune: int, now: int)
    requires I64_MIN <= now - lastPrune <= I64_MAX
    ensures lastPrune <= 0 || now - lastPrune >= 60_000 ==>
      forall a :: a in PruneIfNeeded(rows, ttl, lastPrune, now) <==> a in rows && now - rows[a].fetchedAt <= ttl
    ensures lastPrune > 0 && now - lastPrune < 60_000 ==> PruneIfNeeded(rows, ttl, lastPrune, now) == rows
    ensures forall a :: a in PruneIfNeeded(rows, ttl, lastPrune, now) ==> PruneIfNeeded(rows, ttl, lastPrune, now)[a] == rows[a]
  {
  }

  /** Each member of an Update sets its own field, and a member that is missing none. */
  lemma EachMemberItsField(
    f: Fields, name: Option<string>, note: Option<string>, icon: Option<string>, image: Option<string>, key: string,
    inbox: string, outbox: Option<string>, followers: Option<nat>, following: Option<nat>, id: Option<string>)
    ensures Patch(f, ActorObject(id, None, None, None, None, None, None, None, None, None)) == f
    ensures Patch(f, ActorObject(id, Some(name), None, None, None, None, None, None, None, None)) == f.(displayName := name)
    ensures Patch(f, ActorObject(id, None, Some(note), None, None, None, None, None, None, None)) == f.(note := note)
    ensures Patch(f, ActorObject(id, None, None, Some(icon), None, None, None, None, None, None)) == f.(avatarUrl := icon)
    ensures Patch(f, ActorObject(id, None, None, None, Some(image), None, None, None, None, None)) == f.(headerUrl := image)
    ensures Patch(f, ActorObject(id, None, None, None, None, Some(key), None, None, None, None)) == f.(publicKeyPem := key)
    ensures Patch(f, ActorObject(id, None, None, None, None, None, Some(inbox), None, None, None)) == f.(inboxUri := inbox)
    ensures Patch(f, ActorObject(id, None, None, None, None, None, None, Some(outbox), None, None)) == f.(outboxUri := outbox)
    ensures Patch(f, ActorObject(id, None, None, None, None, None, None, None, Some(followers), None)) == f.(followersCount := followers)
    ensures Patch(f, ActorObject(id, None, None, None, None, None, None, None, None, Some(following))) == f.(followingCount := following)
  {
  }

  /** The members do not get in each other's way: a patch is the patches of its two halves. */
  lemma PatchesCombine(f: Fields, a: ActorObject, b: ActorObject)
    requires a.note.None? && a.image.None? && a.inbox.None? && a.followersCount.None?
    requires b.name.None? && b.icon.None? && b.publicKeyPem.None? && b.outbox.None? && b.followingCount.None?
    ensures Patch(Patch(f, a), b)
         == Patch(f, ActorObject(a.id, a.name, b.note, a.icon, b.image, a.publicKeyPem, b.inbox, a.outbox, b.followersCount, a.followingCount))
  {
  }

  /** An Update refreshes exactly the actor's unexpired rows. It changes no other actor's row, and none at
      all when it names another actor or has no object. */
  lemma UpdateTouchesOnlyItsActor(rows: Rows, ttl: nat, last: int, uri: string, o: Option<ActorObject>, now: int, a: string)
    requires a in rows && now - rows[a].fetchedAt <= ttl
    ensures var after := After(rows, ttl, last, UpdateOp(uri, o, now));
      && a in after && after[a].uri == rows[a].uri
      && after[a] == if rows[a].uri == uri && o.Some? && (o.value.id.Some? ==> o.value.id.value == uri)
                     then Profile(uri, Patch(rows[a].fields, o.value), now) else rows[a]
  {
    var updated := Rewritten(rows, ttl, uri, o, now);
    if a in updated {
      assert (rows + updated)[a] == updated[a];
    } else {
      assert a in rows + updated && (rows + updated)[a] == rows[a];
    }
  }

  lemma PruneOfRefreshed(before: Rows, ttl: nat, last: int, now: int, updated: Rows)
    requires forall a :: a in updated ==> updated[a].fetchedAt == now
    ensures PruneIfNeeded(before + updated, ttl, last, now) == PruneIfNeeded(before, ttl, last, now) + updated
  {
  }

  lemma PartialStep(before: Rows, ttl: nat, last: int, now: int, updated: Rows, done: set<string>, address: string)
    requires forall a :: a in updated ==> updated[a].fetchedAt == now
    requires done <= updated.Keys && address in updated.Keys - done
    ensures var lastNow := if done != {} && PruneDue(last, now) then now else last;
      PruneIfNeeded(Partial(before, ttl, last, now, updated, done)[address := updated[address]], ttl, lastNow, now)
        == Partial(before, ttl, last, now, updated, done + {address})
  {
    var one: Rows := map[address := updated[address]];
    var rewritten := map a | a in updated && a in done :: updated[a];
    var rewritten' := map a | a in updated && a in done + {address} :: updated[a];
    if done == {} {
      PruneOfRefreshed(before, ttl, last, now, one);
      assert before[address := updated[address]] == before + one && rewritten' == one;
    } else {
      var kept := PruneIfNeeded(before, ttl, last, now);
      assert (kept + rewritten)[address := updated[address]] == kept + rewritten';
      PruneOfRefreshed(kept, ttl, if PruneDue(last, now) then now else last, now, rewritten');
    }
  }

  // ---------------------------------------------------------------------------
  // Runs
  // ---------------------------------------------------------------------------

  datatype Op =
    | GetOp(address: string, now: int, readAt: int)
    | GetByUriOp(uri: string, now: int, readAt: int)
    | InsertOp(newAddress: string, profile: Profile, now: int)
    | UpdateOp(actor: string, payload: Option<ActorObject>, now: int)

  function Answer(rows: Rows, ttl: nat, pick: Picker, lastPrune: int, op: Op): Option<Profile> {
    match op
    case GetOp(a, now, readAt) =>
      var kept := PruneIfNeeded(rows, ttl, lastPrune, now);
      if a in kept && kept[a].fetchedAt >= readAt - ttl then Some(kept[a]) else None
    case GetByUriOp(uri, now, readAt) =>
      var hits := ByUri(PruneIfNeeded(rows, ttl, lastPrune, now), ttl, uri, readAt);
      if hits == map[] || pick(hits) !in hits then None else Some(hits[pick(hits)])
    case _ => None
  }

  function After(rows: Rows, ttl: nat, lastPrune: int, op: Op): Rows {
    match op
    case GetOp(_, now, _) => PruneIfNeeded(rows, ttl, lastPrune, now)
    case GetByUriOp(_, now, _) => PruneIfNeeded(rows, ttl, lastPrune, now)
    case InsertOp(a, p, now) => PruneIfNeeded(rows[a := p], ttl, lastPrune, now)
    case UpdateOp(uri, o, now) =>
      var updated := Rewritten(rows, ttl, uri, o, now);
      if updated == map[] then rows else PruneIfNeeded(rows + updated, ttl, lastPrune, now)
  }

  function LastPruneAfter(rows: Rows, ttl: nat, lastPrune: int, op: Op): int {
    if op.UpdateOp? && Rewritten(rows, ttl, op.actor, op.payload, op.now) == map[] then lastPrune
    else if PruneDue(lastPrune, op.now) then op.now else lastPrune
  }

  /** The answers of the deployed cache over a run. */
  function Answers(rows: Rows, ttl: nat, pick: Picker, lastPrune: int, ops: seq<Op>): seq<Option<Profile>>
    decreases |ops|
  {
    if ops == [] then []
    else [Answer(rows, ttl, pick, lastPrune, ops[0])]
         + Answers(After(rows, ttl, lastPrune, ops[0]), ttl, pick, LastPruneAfter(rows, ttl, lastPrune, ops[0]), ops[1..])
  }

  /** The answers of a cache that deletes every expired row before each call. */
  function EagerAnswers(rows: Rows, ttl: nat, pick: Picker, ops: seq<Op>): seq<Option<Profile>>
    decreases |ops|
  {
    if ops == [] then []
    else
      var clean := Live(rows, ttl, ops[0].now);
      [Answer(clean, ttl, pick, 0, ops[0])] + EagerAnswers(After(clean, ttl, 0, ops[0]), ttl, pick, ops[1..])
  }

  function EndOf(op: Op): int {
    if op.GetOp? || op.GetByUriOp? then op.readAt else op.now
  }

  predicate Monotone(ops: seq<Op>, t: int) {
    ops == [] || (t <= ops[0].now <= EndOf(ops[0]) && Monotone(ops[1..], EndOf(ops[0])))
  }

  lemma LiveLater(a: Rows, b: Rows, ttl: nat, t: int, now: int)
    requires t <= now && Live(a, ttl, t) == Live(b, ttl, t)
    ensures Live(a, ttl, now) == Live(b, ttl, now)
  {
    forall k | k in a || k in b
      ensures k in Live(a, ttl, now) <==> k in Live(b, ttl, now)
      ensures k in Live(a, ttl, now) ==> a[k] == b[k]
    {
      assert k in Live(a, ttl, t) <==> k in Live(b, ttl, t);
      assert k in Live(a, ttl, t) ==> Live(a, ttl, t)[k] == Live(b, ttl, t)[k];
    }
  }

  /** Pruning, done or skipped, leaves the live part alone. */
  lemma PruneKeepsLive(rows: Rows, ttl: nat, last: int, now: int, later: int)
    requires now <= later
    ensures Live(PruneIfNeeded(rows, ttl, last, now), ttl, later) == Live(rows, ttl, later)
  {
  }

  lemma ByUriOfLive(rows: Rows, ttl: nat, uri: string, now: int)
    ensures ByUri(rows, ttl, uri, now) == ByUri(Live(rows, ttl, now), ttl, uri, now)
  {
  }

  lemma LiveAdd(rows: Rows, more: Rows, ttl: nat, now: int)
    ensures Live(rows + more, ttl, now) == (Live(rows, ttl, now) - more.Keys) + Live(more, ttl, now)
  {
  }

  /** Two caches with the same live rows answer alike and keep the same live rows, whatever their
      clocks for the next prune. */
  lemma StepSeesOnlyLive(a: Rows, lastA: int, b: Rows, lastB: int, ttl: nat, pick: Picker, op: Op)
    requires op.now <= EndOf(op) && Live(a, ttl, op.now) == Live(b, ttl, op.now)
    ensures Answer(a, ttl, pick, lastA, op) == Answer(b, ttl, pick, lastB, op)
    ensures Live(After(a, ttl, lastA, op), ttl, EndOf(op)) == Live(After(b, ttl, lastB, op), ttl, EndOf(op))
  {
    var now, end := op.now, EndOf(op);
    LiveLater(a, b, ttl, now, end);
    match op {
      case GetOp(address, _, _) =>
        PruneKeepsLive(a, ttl, lastA, now, end);
        PruneKeepsLive(b, ttl, lastB, now, end);
        AnswerIsLive(a, ttl, pick, lastA, op);
        AnswerIsLive(b, ttl, pick, lastB, op);
      case GetByUriOp(uri, _, _) =>
        var keptA, keptB := PruneIfNeeded(a, ttl, lastA, now), PruneIfNeeded(b, ttl, lastB, now);
        PruneKeepsLive(a, ttl, lastA, now, end);
        PruneKeepsLive(b, ttl, lastB, now, end);
        ByUriOfLive(keptA, ttl, uri, end);
        ByUriOfLive(keptB, ttl, uri, end);
      case InsertOp(address, p, _) =>
        LiveAdd(a, map[address := p], ttl, now);
        LiveAdd(b, map[address := p], ttl, now);
        assert a[address := p] == a + map[address := p] && b[address := p] == b + map[address := p];
        PruneKeepsLive(a[address := p], ttl, lastA, now, now);
        PruneKeepsLive(b[address := p], ttl, lastB, now, now);
      case UpdateOp(uri, o, _) =>
        ByUriOfLive(a, ttl, uri, now);
        ByUriOfLive(b, ttl, uri, now);
        var updated := Rewritten(a, ttl, uri, o, now);
        LiveAdd(a, updated, ttl, now);
        LiveAdd(b, updated, ttl, now);
        PruneKeepsLive(a + updated, ttl, lastA, now, now);
        PruneKeepsLive(b + updated, ttl, lastB, now, now);
    }
  }

  lemma AnswerIsLive(rows: Rows, ttl: nat, pick: Picker, last: int, op: Op)
    requires op.GetOp? && op.now <= op.readAt
    ensures Answer(rows, ttl, pick, last, op)
         == if op.address in Live(rows, ttl, op.readAt) then Some(Live(rows, ttl, op.readAt)[op.address]) else None
  {
    PruneKeepsLive(rows, ttl, last, op.now, op.readAt);
  }

  /** The deferred prune is unobservable: from the same live rows and for any time of the last
      prune, every run with a monotone clock is answered as by a cache that prunes before each call. */
  lemma {:induction false} DeferredPruneNeverShows(
    a: Rows, lastPrune: int, b: Rows, ttl: nat, pick: Picker, ops: seq<Op>, t: int)
    requires Monotone(ops, t) && Live(a, ttl, t) == Live(b, ttl, t)
    ensures Answers(a, ttl, pick, lastPrune, ops) == EagerAnswers(b, ttl, pick, ops)
    decreases |ops|
  {
    if ops != [] {
      var op := ops[0];
      var clean := Live(b, ttl, op.now);
      LiveLater(a, b, ttl, t, op.now);
      assert Live(clean, ttl, op.now) == clean;
      StepSeesOnlyLive(a, lastPrune, clean, 0, ttl, pick, op);
      DeferredPruneNeverShows(After(a, ttl, lastPrune, op), LastPruneAfter(a, ttl, lastPrune, op),
                              After(clean, ttl, 0, op), ttl, pick, ops[1..], EndOf(op));
    }
  }

  /** With a clock that steps back the prune does show: a row deleted as expired would have been
      live again. */
  lemma BackwardClockShowsPrune(p: Profile, pick: Picker, ttl: nat)
    requires p.fetchedAt == 1 && PRUNE_INTERVAL_MS > ttl
    ensures var ops := [GetOp("a", ttl + 2, ttl + 2), GetOp("a", 1, 1)];
      Answers(map["a" := p], ttl, pick, ttl + 1, ops) != EagerAnswers(map["a" := p], ttl, pick, ops)
  {
    var rows: Rows := map["a" := p];
    var first, second := GetOp("a", ttl + 2, ttl + 2), GetOp("a", 1, 1);
    assert [first, second][1..] == [second] && [second][1..] == [];
    assert !PruneDue(ttl + 1, ttl + 2);
    assert Live(rows, ttl, ttl + 2) == map[];
    assert Answers(rows, ttl, pick, ttl + 1, [second]) == [Answer(rows, ttl, pick, ttl + 1, second)];
    assert EagerAnswers(map[], ttl, pick, [second]) == [Answer(Live(map[], ttl, 1), ttl, pick, 0, second)];
    assert Answers(rows, ttl, pick, ttl + 1, [first, second])
        == [Answer(rows, ttl, pick, ttl + 1, first)] + Answers(rows, ttl, pick, ttl + 1, [second]);
    assert EagerAnswers(rows, ttl, pick, [first, second])
        == [Answer(map[], ttl, pick, 0, first)] + EagerAnswers(map[], ttl, pick, [second]);
    assert Answers(rows, ttl, pick, ttl + 1, [first, second])[1] == Some(p);
    assert EagerAnswers(rows, ttl, pick, [first, second])[1] == None;
  }
}
