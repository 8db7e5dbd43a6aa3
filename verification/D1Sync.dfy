/** Synchronising the local database to D1: a payload is built against the last promoted snapshot,
    uploaded once under its key, and only then is the snapshot replaced. The process may stop
    between any two effects. */
module D1Sync {
  import opened Wrappers
  import opened Ordering

  /** A database: its tables by name, each a map from primary key to row. */
  type Db = map<string, map<string, string>>

  /** sqldiff, the reset-and-dump script, the SQL engine and the payload hash, over payloads of
      type P. */
  datatype Tools<!P(!new)> = Tools(
    diff: (Db, Db) -> P, dump: Db -> P, apply: (Db, P) -> Db, blank: P -> bool, key: P -> string)

  /** What the tools are for. A full dump drops and recreates exactly the tables of the dumped
      database, so tables that only the remote has survive it. */
  ghost predicate Lawful<P(!new)>(x: Tools<P>) {
    && (forall a, b :: x.apply(a, x.diff(a, b)) == b)
    && (forall a :: x.blank(x.diff(a, a)))
    && (forall a, p :: x.blank(p) ==> x.apply(a, p) == a)
    && (forall r, b :: x.apply(r, x.dump(b)) == r + b)
    && (forall b :: !x.blank(x.dump(b)))
  }

  /** The laws can be met. */
  datatype Script = Nothing | Replace(db: Db) | Overlay(db: Db)

  function ScriptTools(key: Script -> string): Tools<Script> {
    Tools(
      (a: Db, b: Db) => if a == b then Nothing else Replace(b),
      (b: Db) => Overlay(b),
      (a: Db, p: Script) => (match p case Nothing => a case Replace(b) => b case Overlay(b) => a + b),
      (p: Script) => p == Nothing,
      key)
  }

  lemma LawfulToolsExist(key: Script -> string)
    ensures Lawful(ScriptTools(key))
  {
  }

  /** The history table: the stamp (sync_at, sync_name) of every payload key recorded with an
      upload; `sync_key` is its primary key. */
  type History = map<string, Stamp>

  /** Where a running sync stands. */
  datatype Phase<P> =
    | Idle
    | Prepared(source: Db, payload: P)
    | Uploading(source: Db, payload: P)
    | Promoting(source: Db)
    | Renaming(source: Db)
    | Pruning

  /** `pending` remembers the source of the last upload until its snapshot is promoted; no step
      looks at it. */
  datatype State<P> = State(
    local: Db, snapshot: Option<Db>, remote: Db, history: History, phase: Phase<P>, pending: Option<Db>)

  datatype Upload = Applied | AppliedButFailed | NotApplied

  /** Each step is one effect; `Crash` stops the sync where it stands. */
  datatype Step =
    | LocalWrite(db: Db)
    | Start
    | CheckKey
    | UploadPayload(stamp: Stamp, outcome: Upload)
    | RemoveOld
    | Rename(works: bool)
    | Prune(applied: bool)
    | Crash

  function PayloadFor<P(!new)>(x: Tools<P>, snapshot: Option<Db>, source: Db): P {
    if snapshot.Some? then x.diff(snapshot.value, source) else x.dump(source)
  }

  function StampsOf(h: History): set<Stamp> {
    set k | k in h :: h[k]
  }

  /** Keeps the newest `retention` rows; 0 keeps all. */
  function PruneHistory(h: History, retention: nat): History {
    if retention == 0 then h else map k | k in h && h[k] in Top(StampsOf(h), retention) :: h[k]
  }

  function Do<P(!new)>(x: Tools<P>, retention: nat, s: State<P>, step: Step): State<P> {
    match (step, s.phase)
    case (LocalWrite(db), _) => s.(local := db)
    case (Start, Idle) =>
      var payload := PayloadFor(x, s.snapshot, s.local);
      if x.blank(payload) then s else s.(phase := Prepared(s.local, payload))
    case (CheckKey, Prepared(source, payload)) =>
      s.(phase := if x.key(payload) in s.history then Promoting(source) else Uploading(source, payload))
    case (UploadPayload(stamp, outcome), Uploading(source, payload)) =>
      var t := if outcome == NotApplied then s
               else s.(remote := x.apply(s.remote, payload), pending := Some(source),
                       history := s.history[x.key(payload) := stamp]);
      t.(phase := if outcome == Applied then Promoting(source) else Idle)
    case (RemoveOld, Promoting(source)) => s.(snapshot := None, phase := Renaming(source))
    case (Rename(works), Renaming(source)) =>
      if works then s.(snapshot := Some(source), pending := None, phase := Pruning) else s.(phase := Idle)
    case (Prune(applied), Pruning) =>
      s.(history := if applied then PruneHistory(s.history, retention) else s.history, phase := Idle)
    case (Crash, _) => s.(phase := Idle)
    case _ => s
  }

  function Run<P(!new)>(x: Tools<P>, retention: nat, s: State<P>, steps: seq<Step>): State<P>
    decreases |steps|
  {
    if steps == [] then s else Run(x, retention, Do(x, retention, s, steps[0]), steps[1..])
  }

  // ---------------------------------------------------------------------------
  // Safety over runs with crashes
  // ---------------------------------------------------------------------------

  /** Whenever a snapshot exists, the remote equals it, or equals the source of the payload
      uploaded but not yet promoted, and the key of that payload is still recorded. */
  predicate Accounted<P(!new)>(x: Tools<P>, s: State<P>) {
    s.snapshot.Some? ==>
      match s.pending
      case None => s.remote == s.snapshot.value
      case Some(source) => s.remote == source && x.key(x.diff(s.snapshot.value, source)) in s.history
  }

  predicate InDoubt<P(!new)>(s: State<P>) {
    s.snapshot.Some? && s.pending.Some?
  }

  /** What the phases know on top. */
  ghost predicate PhaseInv<P(!new)>(x: Tools<P>, s: State<P>) {
    match s.phase
    case Idle => true
    case Prepared(source, payload) =>
      && payload == PayloadFor(x, s.snapshot, source)
      && (InDoubt(s) ==> source == s.remote)
      && (s.snapshot.None? ==> s.remote.Keys <= source.Keys)
    case Uploading(source, payload) =>
      && payload == PayloadFor(x, s.snapshot, source)
      && !InDoubt(s)
      && (s.snapshot.None? ==> s.remote.Keys <= source.Keys)
    case Promoting(source) => s.remote == source
    case Renaming(source) => s.remote == source && s.snapshot.None?
    case Pruning => s.snapshot == Some(s.remote) && s.pending == None
  }

  ghost predicate Inv<P(!new)>(x: Tools<P>, s: State<P>) {
    Accounted(x, s) && PhaseInv(x, s)
  }

  /** Before the first sync, and after one that was promoted, the invariant holds. */
  lemma IdleIsSound<P(!new)>(x: Tools<P>, s: State<P>)
    requires s.phase.Idle? && s.pending.None? && s.snapshot in {None, Some(s.remote)}
    ensures Inv(x, s)
  {
  }

  /** The hypotheses on a run. A sync that starts in doubt is a retry on the uploaded source; one
      that starts without a snapshot finds no table on the remote that it will not recreate; and a
      key is only ever found for a source the remote already holds. Local writes are free. */
  predicate Benign<P(!new)>(x: Tools<P>, s: State<P>, step: Step) {
    match (step, s.phase)
    case (Start, Idle) =>
      (InDoubt(s) ==> s.local == s.remote) && (s.snapshot.None? ==> s.remote.Keys <= s.local.Keys)
    case (CheckKey, Prepared(source, payload)) => x.key(payload) in s.history ==> s.remote == source
    case _ => true
  }

  predicate BenignRun<P(!new)>(x: Tools<P>, retention: nat, s: State<P>, steps: seq<Step>)
    decreases |steps|
  {
    steps == [] || (Benign(x, s, steps[0]) && BenignRun(x, retention, Do(x, retention, s, steps[0]), steps[1..]))
  }

  lemma Overlaid(r: Db, b: Db)
    ensures r + b == b <==> r.Keys <= b.Keys
  {
    if r.Keys <= b.Keys {
      assert (r + b).Keys == b.Keys;
    } else {
      var t :| t in r && t !in b;
      assert t in r + b;
    }
  }

  lemma StepKeepsInv<P(!new)>(x: Tools<P>, retention: nat, s: State<P>, step: Step)
    requires Lawful(x) && Inv(x, s) && Benign(x, s, step)
    ensures Inv(x, Do(x, retention, s, step))
  {
    if step.UploadPayload? && s.phase.Uploading? && s.snapshot.None? {
      Overlaid(s.remote, s.phase.source);
    }
  }

  /** Over every run of sync cycles and local writes, with a crash after any effect. */
  lemma {:induction false} RemoteIsAlwaysAccountedFor<P(!new)>(x: Tools<P>, retention: nat, s: State<P>, steps: seq<Step>)
    requires Lawful(x) && Inv(x, s) && BenignRun(x, retention, s, steps)
    ensures Inv(x, Run(x, retention, s, steps)) && Accounted(x, Run(x, retention, s, steps))
    decreases |steps|
  {
    if steps != [] {
      StepKeepsInv(x, retention, s, steps[0]);
      RemoteIsAlwaysAccountedFor(x, retention, Do(x, retention, s, steps[0]), steps[1..]);
    }
  }

  // ---------------------------------------------------------------------------
  // One uninterrupted cycle
  // ---------------------------------------------------------------------------

  function CycleSteps(stamp: Stamp): seq<Step> {
    [Start, CheckKey, UploadPayload(stamp, Applied), RemoveOld, Rename(true), Prune(true)]
  }

  function Cycle<P(!new)>(x: Tools<P>, retention: nat, s: State<P>, stamp: Stamp): State<P> {
    Run(x, retention, s, CycleSteps(stamp))
  }

  /** What a cycle does: nothing, promote only, or upload and promote. */
  function Outcome<P(!new)>(x: Tools<P>, retention: nat, s: State<P>, stamp: Stamp): State<P> {
    var p := PayloadFor(x, s.snapshot, s.local);
    if x.blank(p) then s
    else if x.key(p) in s.history then
      s.(snapshot := Some(s.local), pending := None, history := PruneHistory(s.history, retention))
    else
      s.(snapshot := Some(s.local), pending := None, remote := x.apply(s.remote, p),
         history := PruneHistory(s.history[x.key(p) := stamp], retention))
  }

  lemma {:induction false} RunIdle<P(!new)>(x: Tools<P>, retention: nat, s: State<P>, steps: seq<Step>)
    requires s.phase == Idle && forall i :: 0 <= i < |steps| ==> !steps[i].LocalWrite? && !steps[i].Start?
    ensures Run(x, retention, s, steps) == s
    decreases |steps|
  {
    if steps != [] {
      assert !steps[0].LocalWrite? && !steps[0].Start?;
      RunIdle(x, retention, s, steps[1..]);
    }
  }

  lemma FinishCycle<P(!new)>(x: Tools<P>, retention: nat, s: State<P>)
    requires s.phase.Promoting?
    ensures Run(x, retention, s, [RemoveOld, Rename(true), Prune(true)])
         == s.(snapshot := Some(s.phase.source), pending := None,
               history := PruneHistory(s.history, retention), phase := Idle)
  {
    var a := Do(x, retention, s, RemoveOld);
    var b := Do(x, retention, a, Rename(true));
    var rest := [RemoveOld, Rename(true), Prune(true)];
    assert rest[1..] == [Rename(true), Prune(true)] && rest[1..][1..] == [Prune(true)] && rest[1..][1..][1..] == [];
    assert Run(x, retention, b, [Prune(true)]) == Run(x, retention, Do(x, retention, b, Prune(true)), []);
    assert Run(x, retention, a, [Rename(true), Prune(true)]) == Run(x, retention, b, [Prune(true)]);
  }

  lemma CycleOutcome<P(!new)>(x: Tools<P>, retention: nat, s: State<P>, stamp: Stamp)
    requires s.phase == Idle
    ensures Cycle(x, retention, s, stamp) == Outcome(x, retention, s, stamp)
  {
    var steps := CycleSteps(stamp);
    var upload := UploadPayload(stamp, Applied);
    var tail := [RemoveOld, Rename(true), Prune(true)];
    assert steps[1..] == [CheckKey, upload] + tail && steps[1..][1..] == [upload] + tail;
    assert ([upload] + tail)[1..] == tail;
    var a := Do(x, retention, s, Start);
    if a.phase == Idle {
      RunIdle(x, retention, a, steps[1..]);
    } else {
      var b := Do(x, retention, a, CheckKey);
      var c := Do(x, retention, b, upload);
      FinishCycle(x, retention, c);
      assert Run(x, retention, b, [upload] + tail) == Run(x, retention, c, tail);
      assert Run(x, retention, a, [CheckKey, upload] + tail) == Run(x, retention, b, [upload] + tail);
    }
  }

  predicate Synced<P(!new)>(s: State<P>) {
    s.remote == s.local && s.snapshot == Some(s.local)
  }

  /** From a quiet state a cycle brings the remote up to date exactly when the payload's key has not
      been seen before, or there was nothing to send. */
  lemma QuietCycleSyncsIff<P(!new)>(x: Tools<P>, retention: nat, s: State<P>, stamp: Stamp)
    requires Lawful(x) && s.phase == Idle && s.snapshot == Some(s.remote)
    ensures Synced(Cycle(x, retention, s, stamp)) <==>
      x.key(x.diff(s.remote, s.local)) !in s.history || s.local == s.remote
  {
    CycleOutcome(x, retention, s, stamp);
    var p := x.diff(s.remote, s.local);
    assert x.blank(p) ==> x.apply(s.remote, p) == s.remote;
  }

  /** A retry after an upload that was not promoted promotes without applying the payload again. */
  lemma RetryAppliesOnce<P(!new)>(x: Tools<P>, retention: nat, s: State<P>, stamp: Stamp)
    requires Lawful(x) && Accounted(x, s) && s.phase == Idle && InDoubt(s) && s.local == s.remote
    ensures Synced(Cycle(x, retention, s, stamp)) && Cycle(x, retention, s, stamp).remote == s.remote
  {
    CycleOutcome(x, retention, s, stamp);
    var p := x.diff(s.snapshot.value, s.local);
    assert x.blank(p) ==> x.apply(s.snapshot.value, p) == s.snapshot.value;
  }

  /** A lost snapshot is repaired by the full dump exactly when the remote has no table of its own;
      if the same dump is on record already, exactly when the remote is what it describes. */
  lemma LostSnapshotRepairedIff<P(!new)>(x: Tools<P>, retention: nat, s: State<P>, stamp: Stamp)
    requires Lawful(x) && s.phase == Idle && s.snapshot == None
    ensures Synced(Cycle(x, retention, s, stamp)) <==>
      if x.key(x.dump(s.local)) in s.history then s.remote == s.local else s.remote.Keys <= s.local.Keys
  {
    CycleOutcome(x, retention, s, stamp);
    Overlaid(s.remote, s.local);
  }

  /** Wherever a run was cut short, the next uninterrupted cycle that meets the hypotheses brings
      local database, remote and snapshot together. */
  lemma OneCycleRecovers<P(!new)>(x: Tools<P>, retention: nat, s: State<P>, steps: seq<Step>, stamp: Stamp)
    requires Lawful(x) && Inv(x, s) && BenignRun(x, retention, s, steps)
    requires var t := Run(x, retention, s, steps);
      && t.phase == Idle && Benign(x, t, Start) && Benign(x, Do(x, retention, t, Start), CheckKey)
    ensures Synced(Cycle(x, retention, Run(x, retention, s, steps), stamp))
  {
    RemoteIsAlwaysAccountedFor(x, retention, s, steps);
    var t := Run(x, retention, s, steps);
    if t.snapshot.None? {
      LostSnapshotRepairedIff(x, retention, t, stamp);
    } else if InDoubt(t) {
      RetryAppliesOnce(x, retention, t, stamp);
    } else {
      QuietCycleSyncsIff(x, retention, t, stamp);
      var p := x.diff(t.remote, t.local);
      assert x.blank(p) ==> x.apply(t.remote, p) == t.remote;
    }
  }

  lemma StampsWithout(h: History, k: string)
    requires k in h
    ensures StampsOf(h) == StampsOf(h - {k}) + {h[k]}
  {
    var rest := h - {k};
    forall s | s in StampsOf(h) && s != h[k] ensures s in StampsOf(rest) {
      var j :| j in h && h[j] == s;
      assert j in rest && rest[j] == s;
    }
    forall s | s in StampsOf(rest) ensures s in StampsOf(h) {
      var j :| j in rest && rest[j] == s;
      assert j in h;
    }
  }

  lemma {:induction false} StampsNoMore(h: History)
    ensures |StampsOf(h)| <= |h|
    decreases |h|
  {
    if h != map[] {
      var k :| k in h;
      var rest := h - {k};
      StampsNoMore(rest);
      StampsWithout(h, k);
      assert rest.Keys == h.Keys - {k} && |rest| == |rest.Keys| && |h| == |h.Keys|;
    } else {
      assert StampsOf(h) == {};
    }
  }

  /** No two rows carry the same stamp: the name of every sync is a fresh ULID. */
  predicate DistinctStamps(h: History) {
    forall j, k :: j in h && k in h && h[j] == h[k] ==> j == k
  }

  lemma {:induction false} StampPerRow(h: History)
    requires DistinctStamps(h)
    ensures |StampsOf(h)| == |h|
    decreases |h|
  {
    if h != map[] {
      var k :| k in h;
      var rest := h - {k};
      StampPerRow(rest);
      StampsWithout(h, k);
      assert h[k] !in StampsOf(rest);
      assert rest.Keys == h.Keys - {k} && |rest| == |rest.Keys| && |h| == |h.Keys|;
    } else {
      assert StampsOf(h) == {};
    }
  }

  /** A prune leaves exactly as many rows as are retained, unchanged, and each of them is newer than
      each row that went. */
  lemma NewestRowsStay(all: History, retention: nat)
    requires DistinctStamps(all)
    ensures var h := PruneHistory(all, retention);
      && (retention == 0 ==> h == all)
      && (retention > 0 ==> |h| == if |all| <= retention then |all| else retention)
      && (forall k :: k in h ==> k in all && h[k] == all[k])
      && (forall j, k :: j in all && j !in h && k in h ==> Ahead(all[k], all[j]))
  {
    if retention > 0 {
      RetainedCount(all, retention);
      forall j, k | j in all && j !in PruneHistory(all, retention) && k in PruneHistory(all, retention)
        ensures Ahead(all[k], all[j])
      {
        CutOffIsOlder(StampsOf(all), retention, all[k], all[j]);
      }
    }
  }

  lemma RetainedCount(all: History, retention: nat)
    requires retention > 0 && DistinctStamps(all)
    ensures |PruneHistory(all, retention)| == if |all| <= retention then |all| else retention
  {
    var h := PruneHistory(all, retention);
    var kept := Top(StampsOf(all), retention);
    forall t | t in kept ensures t in StampsOf(h) {
      var k :| k in all && all[k] == t;
      assert k in h;
    }
    assert StampsOf(h) == kept;
    StampPerRow(all);
    StampPerRow(h);
    TopSize(StampsOf(all), retention);
  }

  lemma CutOffIsOlder(stamps: set<Stamp>, n: nat, y: Stamp, z: Stamp)
    requires y in Top(stamps, n) && z in stamps - Top(stamps, n)
    ensures Ahead(y, z)
  {
    CutOffIsBehindKept(stamps, n, z);
    TopSize(stamps, n);
    if !Ahead(y, z) { SubsetSize(AheadOf(Top(stamps, n), z), Top(stamps, n) - {y}); }
  }

  /** A history within the retention count is not pruned. */
  lemma SmallHistoryStays(h: History, retention: nat)
    requires retention == 0 || |h| <= retention
    ensures PruneHistory(h, retention) == h
  {
    if retention != 0 {
      StampsNoMore(h);
      TopOfFew(StampsOf(h), retention);
      assert forall k :: k in h ==> h[k] in StampsOf(h);
    }
  }

  /** The hypothesis on keys is needed: the key is a hash of the payload text alone. After going
      from `a` to `b` and back, the next change to `b` has a key on record, so the snapshot moves to
      `b` while the remote stays at `a`, and no later cycle repairs that. */
  lemma RepeatedChangeIsNotSent<P(!new)>(
    x: Tools<P>, retention: nat, s: State<P>, b: Db, first: Stamp, second: Stamp, third: Stamp)
    requires Lawful(x) && s.phase == Idle && Synced(s) && b != s.local
    requires x.key(x.diff(s.local, b)) != x.key(x.diff(b, s.local))
    requires x.key(x.diff(s.local, b)) !in s.history && x.key(x.diff(b, s.local)) !in s.history
    requires retention == 0 || |s.history| + 2 <= retention
    ensures var a := s.local;
      var there := Cycle(x, retention, s.(local := b), first);
      var back := Cycle(x, retention, there.(local := a), second);
      var again := Cycle(x, retention, back.(local := b), third);
      && Synced(there) && Synced(back)
      && again.remote == a && again.snapshot == Some(b) == Some(again.local) && !Accounted(x, again)
      && (forall later :: Cycle(x, retention, again, later) == again)
  {
    var a := s.local;
    var there := SyncedOnce(x, retention, s, b, first);
    var back := SyncedOnce(x, retention, there, a, second);
    CycleOutcome(x, retention, back.(local := b), third);
    var again := Cycle(x, retention, back.(local := b), third);
    assert !x.blank(x.diff(a, b)) by { assert x.apply(a, x.diff(a, b)) == b; }
    forall later ensures Cycle(x, retention, again, later) == again { CycleOutcome(x, retention, again, later); }
  }

  /** A change whose key is not on record is sent, and its key recorded. */
  lemma SyncedOnce<P(!new)>(x: Tools<P>, retention: nat, s: State<P>, b: Db, stamp: Stamp) returns (t: State<P>)
    requires Lawful(x) && s.phase == Idle && Synced(s) && b != s.local && x.key(x.diff(s.local, b)) !in s.history
    requires retention == 0 || |s.history| + 1 <= retention
    ensures t == Cycle(x, retention, s.(local := b), stamp) && Synced(t) && t.local == b && t.phase == Idle
    ensures t.history == s.history[x.key(x.diff(s.local, b)) := stamp] && |t.history| == |s.history| + 1
  {
    t := Cycle(x, retention, s.(local := b), stamp);
    CycleOutcome(x, retention, s.(local := b), stamp);
    assert !x.blank(x.diff(s.local, b)) by { assert x.apply(s.local, x.diff(s.local, b)) == b; }
    var recorded := s.history[x.key(x.diff(s.local, b)) := stamp];
    assert recorded.Keys == s.history.Keys + {x.key(x.diff(s.local, b))};
    assert |recorded| == |recorded.Keys| && |s.history| == |s.history.Keys|;
    SmallHistoryStays(recorded, retention);
  }

  /** Such a state is where every fresh installation is after its first sync. */
  lemma RepeatedChangeAfterFirstSync<P(!new)>(x: Tools<P>, retention: nat, a: Db, b: Db, stamp: Stamp)
    requires Lawful(x) && a != b && (retention == 0 || retention >= 3)
    requires x.key(x.diff(a, b)) != x.key(x.diff(b, a))
    requires x.key(x.dump(a)) != x.key(x.diff(a, b)) && x.key(x.dump(a)) != x.key(x.diff(b, a))
    ensures var s := Cycle(x, retention, State(a, None, map[], map[], Idle, None), stamp);
      && s.local == a && s.phase == Idle && Synced(s)
      && x.key(x.diff(a, b)) !in s.history && x.key(x.diff(b, a)) !in s.history
      && (retention == 0 || |s.history| + 2 <= retention)
  {
    CycleOutcome(x, retention, State(a, None, map[], map[], Idle, None), stamp);
    var none: Db := map[];
    assert none + a == a;
    SmallHistoryStays(map[x.key(x.dump(a)) := stamp], retention);
  }

  /** A lost snapshot that is not repaired: the remote keeps a table that was dropped locally. */
  lemma DroppedTableSurvivesDump<P(!new)>(x: Tools<P>, stamp: Stamp)
    requires Lawful(x)
    ensures var s := State(map["kept" := map[]], None, map["kept" := map[], "dropped" := map[]], map[], Idle, None);
      !Synced(Cycle(x, 0, s, stamp)) && "dropped" in Cycle(x, 0, s, stamp).remote
  {
    var local: Db := map["kept" := map[]];
    var remote: Db := map["kept" := map[], "dropped" := map[]];
    var s := State(local, None, remote, map[], Idle, None);
    CycleOutcome(x, 0, s, stamp);
    assert "dropped" in remote + local;
  }

  // ---------------------------------------------------------------------------
  // The sync as a program
  // ---------------------------------------------------------------------------

  datatype SyncStatus = Skipped | Duplicate | Success

  /** The first effect that fails, if any. */
  datatype Fault =
    | NoFault
    | CheckFails
    | UploadFails(applied: bool)
    | StagingFails
    | RenameFails
    | PruneFails(applied: bool)

  lemma {:induction false} RunSnoc<P(!new)>(x: Tools<P>, retention: nat, s: State<P>, steps: seq<Step>, step: Step)
    ensures Run(x, retention, s, steps + [step]) == Do(x, retention, Run(x, retention, s, steps), step)
    decreases |steps|
  {
    if steps == [] {
      assert steps + [step] == [step];
      assert Run(x, retention, Do(x, retention, s, step), []) == Do(x, retention, s, step);
    } else {
      assert (steps + [step])[1..] == steps[1..] + [step];
      RunSnoc(x, retention, Do(x, retention, s, steps[0]), steps[1..], step);
    }
  }

  class Syncer<P(!new)> {
    const tools: Tools<P>
    const retention: nat
    var local: Db
    var snapshot: Option<Db>
    var remote: Db
    var history: History
    ghost var phase: Phase<P>
    ghost var pending: Option<Db>

    constructor (tools: Tools<P>, retention: nat, local: Db)
      ensures Now() == State(local, None, map[], map[], Idle, None)
      ensures this.tools == tools && this.retention == retention
    {
      this.tools, this.retention := tools, retention;
      this.local, snapshot, remote, history := local, None, map[], map[];
      phase, pending := Idle, None;
    }

    ghost function Now(): State<P>
      reads this
    {
      State(local, snapshot, remote, history, phase, pending)
    }

    method KeyExists(key: string) returns (found: bool)
      requires phase.Prepared? && key == tools.key(phase.payload)
      modifies this`phase
      ensures found == (key in history)
      ensures Now() == Do(tools, retention, old(Now()), CheckKey)
    {
      found := key in history;
      phase := if found then Promoting(phase.source) else Uploading(phase.source, phase.payload);
    }

    /** Payload and history row go up as one file. */
    method Execute(payload: P, key: string, stamp: Stamp, fault: Fault) returns (ok: bool, ghost outcome: Upload)
      requires phase.Uploading? && phase.payload == payload && key == tools.key(payload)
      modifies this`remote, this`history, this`phase, this`pending
      ensures Now() == Do(tools, retention, old(Now()), UploadPayload(stamp, outcome))
      ensures ok == !fault.UploadFails? && (ok <==> outcome == Applied)
    {
      ok := !fault.UploadFails?;
      outcome := if ok then Applied else if fault.applied then AppliedButFailed else NotApplied;
      ghost var source := phase.source;
      phase := if ok then Promoting(source) else Idle;
      if ok || fault.applied {
        remote := tools.apply(remote, payload);
        history := history[key := stamp];
        pending := Some(source);
      }
    }

    /** Stages a copy of the source, removes the old snapshot, renames the copy over it. */
    method PromoteSnapshot(source: Db, fault: Fault) returns (ok: bool, ghost steps: seq<Step>)
      requires phase == Promoting(source)
      modifies this`snapshot, this`phase, this`pending
      ensures Now() == Run(tools, retention, old(Now()), steps)
      ensures ok == (fault != StagingFails && fault != RenameFails)
      ensures ok ==> phase == Pruning && snapshot == Some(source) && pending == None
      ensures !ok ==> phase == Idle
    {
      ghost var s0 := Now();
      if fault == StagingFails {
        phase := Idle;
        RunSnoc(tools, retention, s0, [], Crash);
        return false, [Crash];
      }
      snapshot, phase := None, Renaming(source);
      RunSnoc(tools, retention, s0, [], RemoveOld);
      RunSnoc(tools, retention, s0, [RemoveOld], Rename(fault != RenameFails));
      assert [RemoveOld] + [Rename(fault != RenameFails)] == [RemoveOld, Rename(fault != RenameFails)];
      if fault == RenameFails {
        phase := Idle;
        return false, [RemoveOld, Rename(false)];
      }
      snapshot, phase, pending := Some(source), Pruning, None;
      return true, [RemoveOld, Rename(true)];
    }

    /** The DELETE may have been applied although it is reported as failed. */
    method PruneSyncHistory(outcome: Upload) returns (ok: bool)
      requires phase == Pruning
      modifies this`history, this`phase
      ensures Now() == Do(tools, retention, old(Now()), Prune(outcome != NotApplied))
      ensures ok == (retention == 0 || outcome == Applied)
    {
      phase := Idle;
      ok := retention == 0 || outcome == Applied;
      if outcome != NotApplied && retention != 0 {
        var newest := Top(StampsOf(history), retention);
        history := map k | k in history && history[k] in newest :: history[k];
      }
    }

    /** A failed prune is only logged. */
    method PromoteAndPrune(source: Db, fault: Fault) returns (ok: bool, ghost steps: seq<Step>)
      requires phase == Promoting(source)
      modifies this`snapshot, this`history, this`phase, this`pending
      ensures phase == Idle && Now() == Run(tools, retention, old(Now()), steps)
      ensures ok ==> snapshot == Some(source) && pending == None
    {
      ghost var s0 := Now();
      ok, steps := PromoteSnapshot(source, fault);
      if ok {
        var outcome := if !fault.PruneFails? then Applied else if fault.applied then AppliedButFailed else NotApplied;
        var _ := PruneSyncHistory(outcome);
        RunSnoc(tools, retention, s0, steps, Prune(outcome != NotApplied));
        steps := steps + [Prune(outcome != NotApplied)];
      }
    }

    /** Uploads the payload unless its key is on record. */
    method UploadOnce(payload: P, stamp: Stamp, fault: Fault) returns (ok: bool, known: bool, ghost steps: seq<Step>)
      requires phase.Prepared? && phase.payload == payload
      modifies this`remote, this`history, this`phase, this`pending
      ensures Now() == Run(tools, retention, old(Now()), steps)
      ensures if ok then phase == Promoting(old(phase).source) else phase == Idle
      ensures ok ==> known == (tools.key(payload) in old(history))
      ensures ok && known ==> remote == old(remote) && history == old(history)
    {
      ghost var s0 := Now();
      var key := tools.key(payload);
      if fault == CheckFails {
        phase := Idle;
        RunSnoc(tools, retention, s0, [], Crash);
        return false, false, [Crash];
      }
      known := KeyExists(key);
      RunSnoc(tools, retention, s0, [], CheckKey);
      if known {
        return true, true, [CheckKey];
      }
      ghost var outcome;
      ok, outcome := Execute(payload, key, stamp, fault);
      RunSnoc(tools, retention, s0, [CheckKey], UploadPayload(stamp, outcome));
      steps := [CheckKey] + [UploadPayload(stamp, outcome)];
    }

    /** `sync_to_d1`: whatever fails, its effects are a run of the step machine; it reports success
        only with the snapshot promoted, and a duplicate only without having sent anything. */
    method SyncToD1(stamp: Stamp, fault: Fault) returns (r: Result<SyncStatus, AppError>, ghost steps: seq<Step>)
      requires phase == Idle
      modifies this
      ensures phase == Idle && Now() == Run(tools, retention, old(Now()), steps)
      ensures r == Ok(Skipped) ==> Now() == old(Now())
      ensures r == Ok(Duplicate) ==> remote == old(remote)
      ensures r == Ok(Success) || r == Ok(Duplicate) ==> snapshot == Some(old(local)) && pending == None
    {
      ghost var s0 := Now();
      var source := local;
      var payload := if snapshot.Some? then tools.diff(snapshot.value, source) else tools.dump(source);
      if tools.blank(payload) {
        return Ok(Skipped), [];
      }
      phase := Prepared(source, payload);
      RunSnoc(tools, retention, s0, [], Start);
      var sent, known, uploading := UploadOnce(payload, stamp, fault);
      RunConcat(tools, retention, s0, [Start], uploading);
      steps := [Start] + uploading;
      if !sent {
        return Err(Storage), steps;
      }
      var promoted, finishing := PromoteAndPrune(source, fault);
      RunConcat(tools, retention, s0, steps, finishing);
      r := if promoted then Ok(if known then Duplicate else Success) else Err(Storage);
      steps := steps + finishing;
    }
  }

  lemma {:induction false} RunConcat<P(!new)>(x: Tools<P>, retention: nat, s: State<P>, a: seq<Step>, b: seq<Step>)
    ensures Run(x, retention, s, a + b) == Run(x, retention, Run(x, retention, s, a), b)
    decreases |a|
  {
    if a == [] {
      assert a + b == b;
    } else {
      assert (a + b)[1..] == a[1..] + b;
      RunConcat(x, retention, Do(x, retention, s, a[0]), a[1..], b);
    }
  }
}
