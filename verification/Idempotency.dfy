/** Idempotency reservations: `idempotency_keys` with its insert trigger. Each operation is one step;
    times are whole seconds, as `datetime('now')` gives them. */
module Idempotency {
  import opened Wrappers

  /** The primary key. */
  datatype Slot = Slot(endpoint: string, key: string)

  datatype Entry = Entry(response: Option<string>, createdAt: int)

  type Table = map<Slot, Entry>

  const RESERVATION_SECONDS: int := 5 * 60
  const RETENTION_SECONDS: int := 30 * 24 * 60 * 60

  /** An INSERT of a new row and the AFTER INSERT trigger that prunes old rows. */
  function InsertNew(t: Table, slot: Slot, e: Entry, now: int): Table {
    var u := t[slot := e];
    map s | s in u && !(u[s].createdAt < now - RETENTION_SECONDS) :: u[s]
  }

  predicate CanReserve(t: Table, slot: Slot, now: int) {
    slot !in t || (t[slot].response.None? && t[slot].createdAt < now - RESERVATION_SECONDS)
  }

  function Reserve(t: Table, slot: Slot, now: int): Table {
    if slot !in t then InsertNew(t, slot, Entry(None, now), now)
    else if CanReserve(t, slot, now) then t[slot := Entry(None, now)]
    else t
  }

  function Put(t: Table, slot: Slot, response: string, now: int): Table {
    if slot in t then t[slot := t[slot].(response := Some(response))]
    else InsertNew(t, slot, Entry(Some(response), now), now)
  }

  function ClearPending(t: Table, slot: Slot): Table {
    if slot in t && t[slot].response.None? then t - {slot} else t
  }

  function ResponseOf(t: Table, slot: Slot): Option<string> {
    if slot in t then t[slot].response else None
  }

  class Store {
    var t: Table

    method GetResponse(slot: Slot) returns (r: Option<string>)
      ensures r == ResponseOf(t, slot)
    {
      r := if slot in t then t[slot].response else None;
    }

    method Insert(slot: Slot, e: Entry, now: int)
      modifies this
      ensures t == InsertNew(old(t), slot, e, now)
    {
      t := t[slot := e];
      t := map s | s in t && !(t[s].createdAt < now - RETENTION_SECONDS) :: t[s];
    }

    method ReserveKey(slot: Slot, now: int) returns (reserved: bool)
      modifies this
      ensures t == Reserve(old(t), slot, now) && reserved == CanReserve(old(t), slot, now)
    {
      if slot !in t {
        Insert(slot, Entry(None, now), now);
        return true;
      }
      reserved := t[slot].response.None? && t[slot].createdAt < now - RESERVATION_SECONDS;
      if reserved {
        t := t[slot := Entry(None, now)];
      }
    }

    method StoreResponse(slot: Slot, response: string, now: int)
      modifies this
      ensures t == Put(old(t), slot, response, now)
    {
      var affected := slot in t;
      if affected {
        t := t[slot := t[slot].(response := Some(response))];
      }
      if !affected {
        Insert(slot, Entry(Some(response), now), now);
      }
    }

    method ClearPendingKey(slot: Slot)
      modifies this
      ensures t == ClearPending(old(t), slot)
    {
      if slot in t && t[slot].response.None? {
        t := t - {slot};
      }
    }
  }

  /** A reservation bars others for five minutes, or until it is cleared; a stored response bars them and
      is not cleared. */
  lemma ReservationLifetime(t: Table, slot: Slot, response: string, first: int, later: int)
    requires CanReserve(t, slot, first)
    ensures var u := Reserve(t, slot, first);
      && slot in u && u[slot] == Entry(None, first)
      && (CanReserve(u, slot, later) <==> later - first > 300)
      && CanReserve(ClearPending(u, slot), slot, later)
    ensures var u := Put(Reserve(t, slot, first), slot, response, later);
      && ResponseOf(u, slot) == Some(response)
      && !CanReserve(u, slot, later) && ClearPending(u, slot) == u
  {
  }

  // ---------------------------------------------------------------------------
  // Runs
  // ---------------------------------------------------------------------------

  datatype Op =
    | ReserveOp(slot: Slot, now: int)
    | PutOp(slot: Slot, now: int, response: string)
    | ClearOp(slot: Slot, now: int)

  function Do(t: Table, op: Op): Table {
    match op
    case ReserveOp(slot, now) => Reserve(t, slot, now)
    case PutOp(slot, now, response) => Put(t, slot, response, now)
    case ClearOp(slot, _) => ClearPending(t, slot)
  }

  function Run(t: Table, ops: seq<Op>): Table
    decreases |ops|
  {
    if ops == [] then t else Run(Do(t, ops[0]), ops[1..])
  }

  predicate Monotone(ops: seq<Op>, now: int) {
    ops == [] || (now <= ops[0].now && Monotone(ops[1..], ops[0].now))
  }

  function EndOf(ops: seq<Op>, now: int): int {
    if ops == [] then now else EndOf(ops[1..], ops[0].now)
  }

  /** The operation inserts a row while `slot`'s row is older than the retention period. */
  predicate PrunedBy(t: Table, op: Op, slot: Slot) {
    && !op.ClearOp? && op.slot !in t
    && slot in t && t[slot].createdAt < op.now - RETENTION_SECONDS
  }

  predicate NeverPruned(t: Table, ops: seq<Op>, slot: Slot)
    decreases |ops|
  {
    ops == [] || (!PrunedBy(t, ops[0], slot) && NeverPruned(Do(t, ops[0]), ops[1..], slot))
  }

  predicate NoPut(ops: seq<Op>, slot: Slot) {
    forall i :: 0 <= i < |ops| ==> !(ops[i].PutOp? && ops[i].slot == slot)
  }

  lemma {:induction false} LostStaysLost(t: Table, ops: seq<Op>, slot: Slot)
    requires ResponseOf(t, slot) == None && NoPut(ops, slot)
    ensures ResponseOf(Run(t, ops), slot) == None
    decreases |ops|
  {
    if ops != [] {
      assert !(ops[0].PutOp? && ops[0].slot == slot);
      LostStaysLost(Do(t, ops[0]), ops[1..], slot);
    }
  }

  /** A stored response stays as it is, and reservations of its slot keep failing, exactly as long as
      no insert comes along once the row is older than thirty days. */
  lemma {:induction false} ResponseStaysIff(t: Table, ops: seq<Op>, slot: Slot, response: string)
    requires ResponseOf(t, slot) == Some(response) && NoPut(ops, slot)
    ensures ResponseOf(Run(t, ops), slot) == Some(response) <==> NeverPruned(t, ops, slot)
    ensures NeverPruned(t, ops, slot) ==> forall now :: !CanReserve(Run(t, ops), slot, now)
    decreases |ops|
  {
    if ops != [] {
      var next := Do(t, ops[0]);
      assert !(ops[0].PutOp? && ops[0].slot == slot);
      if PrunedBy(t, ops[0], slot) {
        assert slot !in next;
        LostStaysLost(next, ops[1..], slot);
      } else {
        assert slot in next && next[slot] == t[slot];
        ResponseStaysIff(next, ops[1..], slot, response);
      }
    }
  }

  lemma {:induction false} YoungRowsAreKept(t: Table, ops: seq<Op>, slot: Slot, now: int)
    requires ResponseOf(t, slot).Some? && NoPut(ops, slot) && Monotone(ops, now)
    requires EndOf(ops, now) <= t[slot].createdAt + RETENTION_SECONDS
    ensures NeverPruned(t, ops, slot)
    decreases |ops|
  {
    if ops != [] {
      TimesGrow(ops[1..], ops[0].now);
      assert !(ops[0].PutOp? && ops[0].slot == slot);
      assert Do(t, ops[0])[slot] == t[slot];
      YoungRowsAreKept(Do(t, ops[0]), ops[1..], slot, ops[0].now);
    }
  }

  lemma {:induction false} TimesGrow(ops: seq<Op>, now: int)
    requires Monotone(ops, now)
    ensures now <= EndOf(ops, now)
  {
    if ops != [] { TimesGrow(ops[1..], ops[0].now); }
  }

  /** Within thirty days of the row's creation the promise is unconditional. */
  lemma StoredForThirtyDays(t: Table, slot: Slot, response: string, ops: seq<Op>, stored: int, later: int)
    requires slot in t ==> t[slot].createdAt <= stored
    requires Monotone(ops, stored) && NoPut(ops, slot)
    requires EndOf(ops, stored) <= (if slot in t then t[slot].createdAt else stored) + RETENTION_SECONDS
    ensures var u := Run(Put(t, slot, response, stored), ops);
      ResponseOf(u, slot) == Some(response) && !CanReserve(u, slot, later)
  {
    var put := Put(t, slot, response, stored);
    YoungRowsAreKept(put, ops, slot, stored);
    ResponseStaysIff(put, ops, slot, response);
  }

  /** After that it is not: the next insert for any other key makes the slot reservable again. */
  lemma OldResponseIsForgotten(slot: Slot, other: Slot, response: string)
    requires slot != other
    ensures var t := Put(map[], slot, response, 0);
      var u := Run(t, [ReserveOp(other, RETENTION_SECONDS + 1)]);
      ResponseOf(t, slot) == Some(response) && ResponseOf(u, slot) == None && CanReserve(u, slot, RETENTION_SECONDS + 1)
  {
    var ops := [ReserveOp(other, RETENTION_SECONDS + 1)];
    assert ops[1..] == [];
    assert Run(Do(Put(map[], slot, response, 0), ops[0]), []) == Do(Put(map[], slot, response, 0), ops[0]);
  }

  /** The slot still shows the reservation made at `at`, or five minutes have passed. */
  predicate Reserved(t: Table, slot: Slot, at: int, now: int) {
    (slot in t && t[slot].createdAt == at) || now > at + RESERVATION_SECONDS
  }

  lemma {:induction false} ReservationHolds(t: Table, ops: seq<Op>, slot: Slot, at: int, now: int)
    requires Reserved(t, slot, at, now) && Monotone(ops, now)
    requires forall i :: 0 <= i < |ops| ==> !(ops[i].ClearOp? && ops[i].slot == slot)
    ensures Reserved(Run(t, ops), slot, at, EndOf(ops, now))
    decreases |ops|
  {
    if ops != [] {
      assert !(ops[0].ClearOp? && ops[0].slot == slot);
      ReservationHolds(Do(t, ops[0]), ops[1..], slot, at, ops[0].now);
    }
  }

  /** Two successful reservations of one slot with no clear between them are more than five minutes
      apart, whatever else happens in between. */
  lemma ReservationsAreApart(t: Table, slot: Slot, first: int, between: seq<Op>, second: int)
    requires CanReserve(t, slot, first) && Monotone(between, first)
    requires forall i :: 0 <= i < |between| ==> !(between[i].ClearOp? && between[i].slot == slot)
    requires EndOf(between, first) <= second
    requires CanReserve(Run(Reserve(t, slot, first), between), slot, second)
    ensures second - first > RESERVATION_SECONDS
  {
    ReservationHolds(Reserve(t, slot, first), between, slot, first, first);
  }
}
