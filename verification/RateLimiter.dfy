/** Federation rate limiter: per-key fixed windows with lazy expiry, and a cap on tracked
    keys enforced by pruning and then evicting the oldest window.
    Every operation holds the write lock, so it is one step at one clock reading. */
module RateLimiter {
  import opened Wrappers

  datatype Entry = Entry(count: nat, start: int)

  type Entries = map<string, Entry>

  /** Chooses the key to evict. `min_by_key` over a hash map leaves ties to the map's iteration
      order; all that is assumed is that the choice is a function of the map it is made from. */
  type Picker = Entries -> string

  ghost predicate PicksOldest(pick: Picker) {
    forall m: Entries :: m != map[] ==>
      pick(m) in m && forall k :: k in m ==> m[pick(m)].start <= m[k].start
  }

  datatype Limits = Limits(max: nat, window: nat, cap: nat)

  const DEFAULT_MAX_REQUESTS: nat := 100
  const DEFAULT_WINDOW: nat := 60_000 // milliseconds

  predicate Oldest(m: Entries, k: string)
    requires k in m
  {
    forall j :: j in m ==> m[k].start <= m[j].start
  }

  predicate Expired(e: Entry, now: int, window: nat) {
    (if now < e.start then 0 else now - e.start) >= window
  }

  function Increment(e: Entry, now: int, window: nat): Entry {
    if Expired(e, now, window) then Entry(1, now) else e.(count := e.count + 1)
  }

  function Prune(m: Entries, now: int, window: nat): Entries {
    map k | k in m && !Expired(m[k], now, window) :: m[k]
  }

  function Evict(m: Entries, pick: Picker): Entries {
    if m == map[] then m else m - {pick(m)}
  }

  /** Makes room for `key` when it is new and the map is full. */
  function Admit(l: Limits, pick: Picker, m: Entries, key: string, now: int): Entries {
    if key !in m && |m| >= l.cap then
      var pruned := Prune(m, now, l.window);
      if |pruned| >= l.cap then Evict(pruned, pick) else pruned
    else m
  }

  /** The entry a request finds for its key: its own, or a new one with count 0. */
  function Found(room: Entries, key: string, now: int): Entry {
    if key in room then room[key] else Entry(0, now)
  }

  /** Counts the request, or refuses it when the open window is full. */
  function Enter(l: Limits, room: Entries, key: string, now: int): (r: (Entries, bool)) {
    var e := Found(room, key, now);
    if !Expired(e, now, l.window) && e.count >= l.max then (room[key := e], false)
    else (room[key := Increment(e, now, l.window)], true)
  }

  function Check(l: Limits, pick: Picker, m: Entries, key: string, now: int): (r: (Entries, bool)) {
    Enter(l, Admit(l, pick, m, key, now), key, now)
  }

  function Count(l: Limits, m: Entries, key: string, now: int): nat {
    if key in m && !Expired(m[key], now, l.window) then m[key].count else 0
  }

  /** The limiter as the server holds it. */
  class Limiter {
    const limits: Limits
    const pick: Picker
    var entries: Entries

    constructor (maxRequests: Option<nat>, window: Option<nat>, maxTrackedKeys: nat, pick: Picker)
      ensures entries == map[] && this.pick == pick
      ensures limits.cap >= 1 && (maxTrackedKeys >= 1 ==> limits.cap == maxTrackedKeys)
      ensures limits.max == maxRequests.UnwrapOr(100) && limits.window == window.UnwrapOr(60_000)
    {
      limits := Limits(
        maxRequests.UnwrapOr(DEFAULT_MAX_REQUESTS),
        window.UnwrapOr(DEFAULT_WINDOW),
        if maxTrackedKeys < 1 then 1 else maxTrackedKeys);
      this.pick := pick;
      entries := map[];
    }

    method PruneOld(now: int)
      modifies this`entries
      ensures entries == Prune(old(entries), now, limits.window)
    {
      entries := map k | k in entries && !Expired(entries[k], now, limits.window) :: entries[k];
    }

    method EvictOldest() returns (evicted: bool)
      modifies this`entries
      ensures entries == Evict(old(entries), pick)
      ensures evicted == (old(entries) != map[])
      ensures evicted && PicksOldest(pick) ==>
        exists k :: k in old(entries) && entries == old(entries) - {k} && Oldest(old(entries), k)
    {
      evicted := entries != map[];
      if evicted {
        entries := entries - {pick(entries)};
      }
    }

    method CheckAndIncrement(key: string, now: int) returns (r: Result<(), AppError>)
      modifies this`entries
      ensures entries == Check(limits, pick, old(entries), key, now).0
      ensures r == if Check(limits, pick, old(entries), key, now).1 then Ok(()) else Err(RateLimited)
    {
      AdmitKey(key, now);
      r := EnterKey(key, now);
    }

    /** Makes room for a key that is not tracked yet. */
    method AdmitKey(key: string, now: int)
      modifies this`entries
      ensures entries == Admit(limits, pick, old(entries), key, now)
    {
      if key !in entries && |entries| >= limits.cap {
        PruneOld(now);
        if |entries| >= limits.cap {
          var _ := EvictOldest();
        }
      }
    }

    /** Counts the request under its key, or refuses it. */
    method EnterKey(key: string, now: int) returns (r: Result<(), AppError>)
      modifies this`entries
      ensures entries == Enter(limits, old(entries), key, now).0
      ensures r == if Enter(limits, old(entries), key, now).1 then Ok(()) else Err(RateLimited)
    {
      if key !in entries {
        entries := entries[key := Entry(0, now)];
      }
      var e := entries[key];
      if !Expired(e, now, limits.window) && e.count >= limits.max {
        r := Err(RateLimited);
      } else {
        entries := entries[key := Increment(e, now, limits.window)];
        r := Ok(());
      }
    }

    method GetCount(key: string, now: int) returns (n: nat)
      ensures n == Count(limits, entries, key, now)
    {
      n := if key in entries && !Expired(entries[key], now, limits.window) then entries[key].count else 0;
    }

    method Reset(key: string)
      modifies this`entries
      ensures entries == old(entries) - {key}
    {
      entries := entries - {key};
    }

    method Clear()
      modifies this`entries
      ensures entries == map[]
    {
      entries := map[];
    }
  }

  // ---------------------------------------------------------------------------
  // Runs
  // ---------------------------------------------------------------------------

  datatype Op =
    | CheckOp(key: string, now: int)
    | CountOp(key: string, now: int)
    | PruneOp(now: int)
    | ResetOp(key: string)
    | ClearOp

  datatype Outcome = Accepted | Limited | CountIs(n: nat)

  function After(l: Limits, pick: Picker, m: Entries, op: Op): Entries {
    match op
    case CheckOp(k, now) => Check(l, pick, m, k, now).0
    case CountOp(_, _) => m
    case PruneOp(now) => Prune(m, now, l.window)
    case ResetOp(k) => m - {k}
    case ClearOp => map[]
  }

  /** What the caller of one operation learns from it. */
  function Answer(l: Limits, pick: Picker, m: Entries, op: Op): seq<Outcome> {
    match op
    case CheckOp(k, now) => [if Check(l, pick, m, k, now).1 then Accepted else Limited]
    case CountOp(k, now) => [CountIs(Count(l, m, k, now))]
    case _ => []
  }

  function Outcomes(l: Limits, pick: Picker, m: Entries, ops: seq<Op>): seq<Outcome>
    decreases |ops|
  {
    if ops == [] then []
    else Answer(l, pick, m, ops[0]) + Outcomes(l, pick, After(l, pick, m, ops[0]), ops[1..])
  }

  function WithoutPrunes(ops: seq<Op>): seq<Op> {
    if ops == [] then []
    else if ops[0].PruneOp? then WithoutPrunes(ops[1..])
    else [ops[0]] + WithoutPrunes(ops[1..])
  }

  function TimeOf(op: Op, t: int): int {
    match op
    case CheckOp(_, now) => now
    case CountOp(_, now) => now
    case PruneOp(now) => now
    case _ => t
  }

  predicate Monotone(ops: seq<Op>, t: int) {
    ops == [] || (t <= TimeOf(ops[0], t) && Monotone(ops[1..], TimeOf(ops[0], t)))
  }

  // ---------------------------------------------------------------------------
  // What the count tells
  // ---------------------------------------------------------------------------

  /** The reported count foretells the next request: it is accepted exactly while the count is below
      the maximum, and then counts one more. No other key's count changes, unless it is evicted. */
  lemma CountGovernsCheck(l: Limits, pick: Picker, m: Entries, key: string, now: int)
    requires l.max >= 1 && l.window > 0
    ensures var (after, accepted) := Check(l, pick, m, key, now);
      && (accepted <==> Count(l, m, key, now) < l.max)
      && Count(l, after, key, now) == Count(l, m, key, now) + (if accepted then 1 else 0)
      && forall k :: k != key && k in after ==> Count(l, after, k, now) == Count(l, m, k, now)
  {
    var room := Admit(l, pick, m, key, now);
    assert key in room <==> key in m;
    assert forall k :: k in room ==> k in m && room[k] == m[k];
  }

  /** A request loses sight of another key's open window only when it brings a new key to a full map,
      and then of one window only, the oldest of those still open. */
  lemma EvictionSparesOthers(l: Limits, pick: Picker, m: Entries, key: string, now: int, k: string)
    requires PicksOldest(pick) && k in m && k != key && !Expired(m[k], now, l.window)
    requires k !in Check(l, pick, m, key, now).0
    ensures key !in m && |m| >= l.cap
    ensures forall j :: j in m && !Expired(m[j], now, l.window) ==> m[k].start <= m[j].start
    ensures var after := Check(l, pick, m, key, now).0;
      forall j :: j in m && !Expired(m[j], now, l.window) && j != k && j != key ==> j in after && after[j] == m[j]
  {
    var pruned := Prune(m, now, l.window);
    assert k in pruned && pick(pruned) == k;
    assert forall j :: j in m && !Expired(m[j], now, l.window) ==> j in pruned && pruned[j] == m[j];
  }

  /** An entry that stays is unchanged, and below the cap, or for a key already tracked, all stay. */
  lemma OthersKeepTheirEntry(l: Limits, pick: Picker, m: Entries, key: string, now: int, k: string)
    requires k != key
    ensures var after := Check(l, pick, m, key, now).0;
      && (k in after ==> k in m && after[k] == m[k])
      && (k in m && (key in m || |m| < l.cap) ==> k in after)
  {
  }

  // ---------------------------------------------------------------------------
  // Bounds kept by every run
  // ---------------------------------------------------------------------------

  predicate Bounded(l: Limits, m: Entries) {
    |m| <= l.cap && forall k :: k in m ==> m[k].count <= l.max
  }

  lemma {:induction false} SmallerMap(a: Entries, b: Entries)
    requires a.Keys <= b.Keys
    ensures |a| <= |b|
    decreases |a|
  {
    assert |a| == |a.Keys| && |b| == |b.Keys|;
    if a != map[] {
      var k :| k in a;
      SmallerMap(a - {k}, b - {k});
      assert (a - {k}).Keys == a.Keys - {k} && (b - {k}).Keys == b.Keys - {k};
    }
  }

  lemma AdmitLeavesRoom(l: Limits, pick: Picker, m: Entries, key: string, now: int)
    requires PicksOldest(pick) && l.cap >= 1 && |m| <= l.cap
    ensures var room := Admit(l, pick, m, key, now);
      && room.Keys <= m.Keys
      && (forall k :: k in room ==> room[k] == m[k])
      && (key in room || |room| < l.cap)
  {
    var pruned := Prune(m, now, l.window);
    SmallerMap(pruned, m);
    if pruned != map[] {
      var p := pick(pruned);
      assert (pruned - {p}).Keys == pruned.Keys - {p};
      assert |pruned| == |pruned.Keys|;
    }
  }

  lemma CheckFits(l: Limits, pick: Picker, m: Entries, key: string, now: int)
    requires PicksOldest(pick) && l.cap >= 1 && |m| <= l.cap
    ensures |Check(l, pick, m, key, now).0| <= l.cap
  {
    AdmitLeavesRoom(l, pick, m, key, now);
    var room := Admit(l, pick, m, key, now);
    var next := Check(l, pick, m, key, now).0;
    SmallerMap(room, m);
    assert next.Keys == room.Keys + {key} && |next| == |next.Keys| && |room| == |room.Keys|;
  }

  /** Tracked keys never exceed the cap and counts never exceed the maximum. */
  lemma StepKeepsBounds(l: Limits, pick: Picker, m: Entries, op: Op)
    requires PicksOldest(pick) && l.cap >= 1 && l.max >= 1 && Bounded(l, m)
    ensures Bounded(l, After(l, pick, m, op))
  {
    match op
    case CheckOp(key, now) =>
      AdmitLeavesRoom(l, pick, m, key, now);
      CheckFits(l, pick, m, key, now);
    case PruneOp(now) => SmallerMap(Prune(m, now, l.window), m);
    case ResetOp(k) => SmallerMap(m - {k}, m);
    case _ =>
  }

  function Final(l: Limits, pick: Picker, m: Entries, ops: seq<Op>): Entries
    decreases |ops|
  {
    if ops == [] then m else Final(l, pick, After(l, pick, m, ops[0]), ops[1..])
  }

  lemma {:induction false} RunsStayBounded(l: Limits, pick: Picker, m: Entries, ops: seq<Op>)
    requires PicksOldest(pick) && l.cap >= 1 && l.max >= 1 && Bounded(l, m)
    ensures Bounded(l, Final(l, pick, m, ops))
    decreases |ops|
  {
    if ops != [] {
      StepKeepsBounds(l, pick, m, ops[0]);
      RunsStayBounded(l, pick, After(l, pick, m, ops[0]), ops[1..]);
    }
  }

  ghost predicate AlwaysBounded(l: Limits, pick: Picker) {
    forall ops :: Bounded(l, Final(l, pick, map[], ops))
  }

  /** Exactly with a maximum of at least one: with zero, a key whose window has expired is counted. */
  lemma AlwaysBoundedIff(l: Limits, pick: Picker)
    requires PicksOldest(pick) && l.cap >= 1
    ensures AlwaysBounded(l, pick) <==> l.max >= 1
  {
    if l.max >= 1 {
      forall ops ensures Bounded(l, Final(l, pick, map[], ops)) {
        RunsStayBounded(l, pick, map[], ops);
      }
    } else {
      var again := [CheckOp("a", l.window)];
      var ops := [CheckOp("a", 0)] + again;
      var once := After(l, pick, map[], CheckOp("a", 0));
      assert ops[1..] == again && again[1..] == [];
      assert "a" in once && Expired(once["a"], l.window, l.window);
      assert Final(l, pick, map[], ops) == Final(l, pick, once, again) == After(l, pick, once, CheckOp("a", l.window));
      assert !Bounded(l, Final(l, pick, map[], ops));
    }
  }

  // ---------------------------------------------------------------------------
  // Pruning is unobservable
  // ---------------------------------------------------------------------------

  /** Windows always start in the past. */
  predicate Started(m: Entries, now: int) {
    forall k :: k in m ==> m[k].start <= now
  }

  lemma PruneUpdate(m: Entries, key: string, e: Entry, now: int, window: nat)
    ensures Prune(m[key := e], now, window)
         == if Expired(e, now, window) then Prune(m, now, window) - {key} else Prune(m, now, window)[key := e]
  {
  }

  /** Making room in a map and in its live part: either neither loses anything, or both end equal. */
  lemma AdmitSeesOnlyLive(l: Limits, pick: Picker, m: Entries, key: string, now: int)
    requires |m| <= l.cap
    ensures var live := Prune(m, now, l.window);
      var room, liveRoom := Admit(l, pick, m, key, now), Admit(l, pick, live, key, now);
      room == liveRoom || (room == m && liveRoom == live)
  {
    var live := Prune(m, now, l.window);
    SmallerMap(live, m);
    assert Prune(live, now, l.window) == live;
    if key in m && key !in live {
      assert live.Keys <= (m - {key}).Keys;
      SmallerMap(live, m - {key});
      assert (m - {key}).Keys == m.Keys - {key} && |m - {key}| == |(m - {key}).Keys| && |m| == |m.Keys|;
    }
  }

  /** Rooms with the same live part treat a request alike. */
  lemma EnterSeesOnlyLive(l: Limits, a: Entries, b: Entries, key: string, now: int)
    requires l.max >= 1 || l.window == 0
    requires Prune(a, now, l.window) == Prune(b, now, l.window)
    ensures Enter(l, a, key, now).1 == Enter(l, b, key, now).1
    ensures Prune(Enter(l, a, key, now).0, now, l.window) == Prune(Enter(l, b, key, now).0, now, l.window)
  {
    var live := Prune(a, now, l.window);
    assert key in live ==> live[key] == a[key] == b[key];
    assert key !in live ==> (key in a ==> Expired(a[key], now, l.window)) && (key in b ==> Expired(b[key], now, l.window));
    PruneUpdate(a, key, Enter(l, a, key, now).0[key], now, l.window);
    PruneUpdate(b, key, Enter(l, b, key, now).0[key], now, l.window);
  }

  /** Checking against the full map or against its live part gives the same answer, and
      results whose live parts agree. */
  lemma CheckSeesOnlyLive(l: Limits, pick: Picker, m: Entries, key: string, now: int)
    requires PicksOldest(pick) && l.cap >= 1 && (l.max >= 1 || l.window == 0)
    requires |m| <= l.cap
    ensures var live := Prune(m, now, l.window);
      && Check(l, pick, m, key, now).1 == Check(l, pick, live, key, now).1
      && Prune(Check(l, pick, m, key, now).0, now, l.window)
         == Prune(Check(l, pick, live, key, now).0, now, l.window)
  {
    var live := Prune(m, now, l.window);
    AdmitSeesOnlyLive(l, pick, m, key, now);
    assert Prune(live, now, l.window) == live;
    EnterSeesOnlyLive(l, Admit(l, pick, m, key, now), Admit(l, pick, live, key, now), key, now);
  }

  lemma LiveLater(a: Entries, b: Entries, t: int, now: int, window: nat)
    requires t <= now && Prune(a, t, window) == Prune(b, t, window)
    ensures Prune(a, now, window) == Prune(b, now, window)
  {
    forall k | k in a || k in b
      ensures k in Prune(a, now, window) <==> k in Prune(b, now, window)
      ensures k in Prune(a, now, window) ==> a[k] == b[k]
    {
      assert k in Prune(a, t, window) <==> k in Prune(b, t, window);
      assert k in Prune(a, t, window) ==> Prune(a, t, window)[k] == Prune(b, t, window)[k];
    }
  }

  lemma ChecksAgree(l: Limits, pick: Picker, a: Entries, b: Entries, key: string, now: int)
    requires PicksOldest(pick) && l.cap >= 1 && (l.max >= 1 || l.window == 0)
    requires |a| <= l.cap && |b| <= l.cap && Prune(a, now, l.window) == Prune(b, now, l.window)
    ensures Check(l, pick, a, key, now).1 == Check(l, pick, b, key, now).1
    ensures Prune(Check(l, pick, a, key, now).0, now, l.window) == Prune(Check(l, pick, b, key, now).0, now, l.window)
  {
    CheckSeesOnlyLive(l, pick, a, key, now);
    CheckSeesOnlyLive(l, pick, b, key, now);
  }

  lemma CountsAgree(l: Limits, a: Entries, b: Entries, key: string, now: int)
    requires Prune(a, now, l.window) == Prune(b, now, l.window)
    ensures Count(l, a, key, now) == Count(l, b, key, now)
  {
    var live := Prune(a, now, l.window);
    assert key in live ==> live[key] == a[key] == b[key];
    assert key !in live ==> Count(l, a, key, now) == 0 == Count(l, b, key, now);
  }

  lemma PruneWithout(m: Entries, key: string, now: int, window: nat)
    ensures Prune(m - {key}, now, window) == Prune(m, now, window) - {key}
  {
  }

  lemma PruneTwice(m: Entries, now: int, window: nat)
    ensures Prune(Prune(m, now, window), now, window) == Prune(m, now, window)
    ensures |Prune(m, now, window)| <= |m|
  {
    SmallerMap(Prune(m, now, window), m);
  }

  /** One step from maps with the same live part: same answer, same live part. */
  lemma StepSeesOnlyLive(l: Limits, pick: Picker, a: Entries, b: Entries, op: Op, t: int)
    requires PicksOldest(pick) && l.cap >= 1 && (l.max >= 1 || l.window == 0)
    requires |a| <= l.cap && |b| <= l.cap && t <= TimeOf(op, t) && !op.PruneOp?
    requires Prune(a, t, l.window) == Prune(b, t, l.window)
    ensures Answer(l, pick, a, op) == Answer(l, pick, b, op)
    ensures |After(l, pick, a, op)| <= l.cap && |After(l, pick, b, op)| <= l.cap
    ensures Prune(After(l, pick, a, op), TimeOf(op, t), l.window) == Prune(After(l, pick, b, op), TimeOf(op, t), l.window)
  {
    LiveLater(a, b, t, TimeOf(op, t), l.window);
    match op {
      case CheckOp(key, now) =>
        ChecksAgree(l, pick, a, b, key, now);
        CheckFits(l, pick, a, key, now);
        CheckFits(l, pick, b, key, now);
      case CountOp(key, now) =>
        CountsAgree(l, a, b, key, now);
      case ResetOp(key) =>
        SmallerMap(a - {key}, a);
        SmallerMap(b - {key}, b);
        PruneWithout(a, key, t, l.window);
        PruneWithout(b, key, t, l.window);
      case ClearOp =>
    }
  }

  /** Bisimulation: from maps with the same live part, a run and the same run with every
      `prune_old` deleted answer every check and every count alike. */
  lemma {:induction false} PruningNeverShows(
    l: Limits, pick: Picker, a: Entries, b: Entries, ops: seq<Op>, t: int)
    requires PicksOldest(pick) && l.cap >= 1 && (l.max >= 1 || l.window == 0)
    requires |a| <= l.cap && |b| <= l.cap && Prune(a, t, l.window) == Prune(b, t, l.window)
    requires Monotone(ops, t)
    ensures Outcomes(l, pick, a, ops) == Outcomes(l, pick, b, WithoutPrunes(ops))
    decreases |ops|
  {
    if ops != [] {
      var op, now := ops[0], TimeOf(ops[0], t);
      var a' := After(l, pick, a, op);
      if op.PruneOp? {
        LiveLater(a, b, t, now, l.window);
        PruneTwice(a, now, l.window);
        PruningNeverShows(l, pick, a', b, ops[1..], now);
      } else {
        StepSeesOnlyLive(l, pick, a, b, op, t);
        PruningNeverShows(l, pick, a', After(l, pick, b, op), ops[1..], now);
        assert WithoutPrunes(ops)[0] == op && WithoutPrunes(ops)[1..] == WithoutPrunes(ops[1..]);
      }
    }
  }

  ghost predicate PruneUnobservable(l: Limits, pick: Picker) {
    forall ops, t :: Monotone(ops, t) ==>
      Outcomes(l, pick, map[], ops) == Outcomes(l, pick, map[], WithoutPrunes(ops))
  }

  /** With `max_requests` 0 and a real window, pruning shows: the expired entry left by a rejected
      request lets the next window's first request through, a pruned one does not. */
  lemma ZeroLimitShowsPruning(l: Limits, pick: Picker)
    requires l.cap >= 1 && l.max == 0 && l.window > 0
    ensures !PruneUnobservable(l, pick)
  {
    var w := l.window;
    var ops := [CheckOp("a", 0), PruneOp(w), CheckOp("a", w)];
    var bare := [CheckOp("a", 0), CheckOp("a", w)];
    assert ops[1..] == [PruneOp(w), CheckOp("a", w)] && ops[1..][1..] == [CheckOp("a", w)];
    assert bare[1..] == [CheckOp("a", w)];
    assert WithoutPrunes([CheckOp("a", w)]) == [CheckOp("a", w)];
    assert WithoutPrunes(ops) == bare;
    assert Monotone([CheckOp("a", w)], w);
    assert Monotone(ops[1..], 0);
    assert Monotone(ops, 0);
    var m: Entries := map["a" := Entry(0, 0)];
    assert After(l, pick, map[], CheckOp("a", 0)) == m;
    assert Prune(m, w, w) == map[];
    assert Outcomes(l, pick, map[], [CheckOp("a", w)]) == [Limited] + Outcomes(l, pick, map["a" := Entry(0, w)], []);
    assert Outcomes(l, pick, m, [CheckOp("a", w)])
        == [Accepted] + Outcomes(l, pick, After(l, pick, m, CheckOp("a", w)), []);
    assert Outcomes(l, pick, m, [PruneOp(w), CheckOp("a", w)]) == [] + Outcomes(l, pick, map[], [CheckOp("a", w)]);
    assert Outcomes(l, pick, map[], ops) == [Limited] + [Limited];
    assert Outcomes(l, pick, map[], bare) == [Limited] + [Accepted];
    assert Outcomes(l, pick, map[], ops)[1] != Outcomes(l, pick, map[], bare)[1];
  }

  /** Exactly when the periodic prune is invisible to every caller. */
  lemma PruneUnobservableIff(l: Limits, pick: Picker)
    requires PicksOldest(pick) && l.cap >= 1
    ensures PruneUnobservable(l, pick) <==> l.max >= 1 || l.window == 0
  {
    if l.max >= 1 || l.window == 0 {
      forall ops, t | Monotone(ops, t)
        ensures Outcomes(l, pick, map[], ops) == Outcomes(l, pick, map[], WithoutPrunes(ops))
      {
        PruningNeverShows(l, pick, map[], map[], ops, t);
      }
    } else {
      ZeroLimitShowsPruning(l, pick);
    }
  }

  // ---------------------------------------------------------------------------
  // The rate bound
  // ---------------------------------------------------------------------------

  /** 1 when `op` is an accepted call for `key` at a time in [lo, lo + window). */
  function AcceptedNow(l: Limits, pick: Picker, m: Entries, op: Op, key: string, lo: int): nat {
    if op.CheckOp? && op.key == key && lo <= op.now < lo + l.window && Check(l, pick, m, key, op.now).1
    then 1 else 0
  }

  function AcceptedIn(l: Limits, pick: Picker, m: Entries, ops: seq<Op>, key: string, lo: int): nat
    decreases |ops|
  {
    if ops == [] then 0
    else AcceptedNow(l, pick, m, ops[0], key, lo)
         + AcceptedIn(l, pick, After(l, pick, m, ops[0]), ops[1..], key, lo)
  }

  /** The step neither evicts `key` while its window is open, nor resets it, nor clears the map. */
  predicate NotDroppedBy(l: Limits, pick: Picker, m: Entries, op: Op, key: string) {
    match op
    case CheckOp(k, now) => key in m && !Expired(m[key], now, l.window) ==> key in Admit(l, pick, m, k, now)
    case ResetOp(k) => k != key
    case ClearOp => false
    case _ => true
  }

  predicate NeverDropped(l: Limits, pick: Picker, m: Entries, ops: seq<Op>, key: string)
    decreases |ops|
  {
    ops == [] || (
      && NotDroppedBy(l, pick, m, ops[0], key)
      && NeverDropped(l, pick, After(l, pick, m, ops[0]), ops[1..], key))
  }

  /** `last` is the latest window opened for `key`, remembered even after its entry is pruned. */
  predicate Tracks(l: Limits, m: Entries, key: string, last: Option<Entry>, now: int) {
    && (key in m ==> last == Some(m[key]))
    && (last.Some? ==> key in m || Expired(last.value, now, l.window))
    && (last.Some? ==> last.value.start <= now && 1 <= last.value.count <= l.max)
  }

  /** How many accepted calls in [lo, lo + window) the latest window leaves possible so far. */
  predicate WithinBudget(l: Limits, last: Option<Entry>, lo: int, now: int, accepted: nat) {
    && (now < lo ==> accepted == 0)
    && match last
       case None => accepted == 0
       case Some(e) =>
         if e.start < lo then accepted <= e.count - 1
         else if e.start < lo + l.window then accepted <= l.max - 1 + e.count
         else accepted <= 2 * l.max - 1
  }

  lemma TrackOther(
    l: Limits, pick: Picker, m: Entries, op: Op, key: string, last: Option<Entry>, t: int)
    requires PicksOldest(pick) && l.cap >= 1 && |m| <= l.cap && t <= TimeOf(op, t)
    requires NotDroppedBy(l, pick, m, op, key) && Tracks(l, m, key, last, t)
    requires !(op.CheckOp? && op.key == key)
    ensures Tracks(l, After(l, pick, m, op), key, last, TimeOf(op, t))
    ensures |After(l, pick, m, op)| <= l.cap
  {
    match op
    case CheckOp(k, now) =>
      AdmitLeavesRoom(l, pick, m, k, now);
      CheckFits(l, pick, m, k, now);
    case PruneOp(now) => SmallerMap(Prune(m, now, l.window), m);
    case ResetOp(k) => SmallerMap(m - {k}, m);
    case _ =>
  }

  lemma TrackOwn(
    l: Limits, pick: Picker, m: Entries, key: string, now: int, lo: int, last: Option<Entry>, t: int, accepted: nat)
    requires PicksOldest(pick) && l.cap >= 1 && l.max >= 1 && |m| <= l.cap && t <= now
    requires Tracks(l, m, key, last, t) && WithinBudget(l, last, lo, t, accepted)
    requires NotDroppedBy(l, pick, m, CheckOp(key, now), key)
    ensures var m' := Check(l, pick, m, key, now).0;
      && |m'| <= l.cap
      && Tracks(l, m', key, Some(m'[key]), now)
      && WithinBudget(l, Some(m'[key]), lo, now, accepted + AcceptedNow(l, pick, m, CheckOp(key, now), key, lo))
  {
    AdmitLeavesRoom(l, pick, m, key, now);
    CheckFits(l, pick, m, key, now);
  }

  lemma {:induction false} BudgetHolds(
    l: Limits, pick: Picker, m: Entries, ops: seq<Op>, key: string, lo: int,
    last: Option<Entry>, t: int, accepted: nat)
    requires PicksOldest(pick) && l.cap >= 1 && l.max >= 1 && |m| <= l.cap
    requires Monotone(ops, t) && NeverDropped(l, pick, m, ops, key)
    requires Tracks(l, m, key, last, t) && WithinBudget(l, last, lo, t, accepted)
    ensures accepted + AcceptedIn(l, pick, m, ops, key, lo) <= 2 * l.max - 1
    decreases |ops|
  {
    if ops != [] {
      var op, now := ops[0], TimeOf(ops[0], t);
      var m' := After(l, pick, m, op);
      var got := AcceptedNow(l, pick, m, op, key, lo);
      if op.CheckOp? && op.key == key {
        TrackOwn(l, pick, m, key, now, lo, last, t, accepted);
        BudgetHolds(l, pick, m', ops[1..], key, lo, Some(m'[key]), now, accepted + got);
      } else {
        TrackOther(l, pick, m, op, key, last, t);
        BudgetHolds(l, pick, m', ops[1..], key, lo, last, now, accepted);
      }
    }
  }

  /** Over every run from an empty limiter with a monotone clock, any half-open interval of one
      window length holds at most 2 * max_requests - 1 accepted calls for a key that is never
      evicted with its window open, reset or cleared. */
  lemma RateBound(l: Limits, pick: Picker, ops: seq<Op>, key: string, lo: int, t: int)
    requires PicksOldest(pick) && l.cap >= 1 && l.max >= 1
    requires Monotone(ops, t) && NeverDropped(l, pick, map[], ops, key)
    ensures AcceptedIn(l, pick, map[], ops, key, lo) <= 2 * l.max - 1
  {
    BudgetHolds(l, pick, map[], ops, key, lo, None, t, 0);
  }

  // A run that attains the bound: one window opened at 0 and filled at 1, the next opened and
  // filled at `window`; the interval starting at 1 misses only the very first call.

  function WorstTime(l: Limits, i: nat): int {
    if i == 0 then 0 else if i < l.max then 1 else l.window
  }

  function WorstRun(l: Limits, key: string, i: nat): seq<Op>
    decreases 2 * l.max - i
  {
    if i >= 2 * l.max then [] else [CheckOp(key, WorstTime(l, i))] + WorstRun(l, key, i + 1)
  }

  function WorstState(l: Limits, key: string, i: nat): Entries {
    if i == 0 then map[]
    else if i <= l.max then map[key := Entry(i, 0)]
    else map[key := Entry(i - l.max, l.window)]
  }

  lemma WorstStep(l: Limits, pick: Picker, key: string, i: nat)
    requires l.cap >= 1 && l.max >= 1 && l.window >= 2 && i < 2 * l.max
    ensures Check(l, pick, WorstState(l, key, i), key, WorstTime(l, i)) == (WorstState(l, key, i + 1), true)
  {
    var m, next := WorstState(l, key, i), WorstState(l, key, i + 1);
    assert m[key := next[key]] == next;
  }

  lemma {:induction false} WorstAccepted(l: Limits, pick: Picker, key: string, i: nat)
    requires l.cap >= 1 && l.max >= 1 && l.window >= 2 && i <= 2 * l.max
    ensures AcceptedIn(l, pick, WorstState(l, key, i), WorstRun(l, key, i), key, 1)
         == 2 * l.max - (if i == 0 then 1 else i)
    decreases 2 * l.max - i
  {
    if i < 2 * l.max {
      WorstStep(l, pick, key, i);
      WorstAccepted(l, pick, key, i + 1);
      assert WorstRun(l, key, i)[1..] == WorstRun(l, key, i + 1);
    }
  }

  lemma {:induction false} WorstKept(l: Limits, pick: Picker, key: string, i: nat)
    requires l.cap >= 1 && l.max >= 1 && l.window >= 2 && i <= 2 * l.max
    ensures NeverDropped(l, pick, WorstState(l, key, i), WorstRun(l, key, i), key)
    decreases 2 * l.max - i
  {
    if i < 2 * l.max {
      WorstStep(l, pick, key, i);
      WorstKept(l, pick, key, i + 1);
      assert WorstRun(l, key, i)[1..] == WorstRun(l, key, i + 1);
    }
  }

  lemma {:induction false} WorstMonotone(l: Limits, key: string, i: nat, t: int)
    requires l.max >= 1 && l.window >= 2 && i <= 2 * l.max && t <= WorstTime(l, i)
    ensures Monotone(WorstRun(l, key, i), t)
    decreases 2 * l.max - i
  {
    if i < 2 * l.max {
      WorstMonotone(l, key, i + 1, WorstTime(l, i));
      assert WorstRun(l, key, i)[1..] == WorstRun(l, key, i + 1);
    }
  }

  /** The bound is attained: no smaller one holds. */
  lemma RateBoundIsTight(l: Limits, pick: Picker, key: string) returns (ops: seq<Op>)
    requires l.cap >= 1 && l.max >= 1 && l.window >= 2
    ensures Monotone(ops, 0) && NeverDropped(l, pick, map[], ops, key)
    ensures AcceptedIn(l, pick, map[], ops, key, 1) == 2 * l.max - 1
  {
    ops := WorstRun(l, key, 0);
    WorstAccepted(l, pick, key, 0);
    WorstKept(l, pick, key, 0);
    WorstMonotone(l, key, 0, 0);
  }
}
