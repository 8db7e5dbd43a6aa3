/** Replacing the avatar or header: upload under a new key, compare-and-set the account row, then
    delete whichever object lost. Any number of calls interleave at their awaits. */
module ImageSwap {
  import opened Wrappers

  datatype Kind = Avatar | Header

  /** An object key: the `avatars/` or `headers/` prefix and a generated id. */
  datatype Key = Key(kind: Kind, id: nat)

  /** The image columns of the single account row. */
  datatype Row = Row(avatar: Option<Key>, header: Option<Key>)

  function KeyIn(r: Row, kind: Kind): Option<Key> {
    if kind == Avatar then r.avatar else r.header
  }

  function SetKey(r: Row, kind: Kind, k: Key): Row {
    if kind == Avatar then r.(avatar := Some(k)) else r.(header := Some(k))
  }

  /** How far a call has come. */
  datatype Call =
    | Started(kind: Kind)
    | Read(kind: Kind, prev: Option<Key>)
    | Uploaded(kind: Kind, prev: Option<Key>, key: Key)
    | Won(prev: Option<Key>, key: Key)
    | Lost(key: Key, error: AppError)
    | Done(result: Result<Key, AppError>)
    | Crashed

  /** `leaked` collects the objects that a failed delete, a crash or an upload that failed after
      storing has orphaned. */
  datatype State = State(
    row: Option<Row>, bucket: set<Key>, used: set<nat>, calls: map<nat, Call>, leaked: set<Key>)

  datatype Upload = Stored | Failed | FailedButStored

  /** One await of one call, with the outcome the outside world gave it. */
  datatype Step =
    | Begin(c: nat, kind: Kind, empty: bool)
    | ReadRow(c: nat, dbError: bool)
    | UploadObject(c: nat, id: nat, outcome: Upload)
    | CompareAndSet(c: nat, dbError: bool)
    | CleanUp(c: nat, deleted: bool)
    | Crash(c: nat)

  /** The object a call still has to delete or install. */
  function Holds(call: Call): Option<Key> {
    match call
    case Uploaded(_, _, k) => Some(k)
    case Lost(k, _) => Some(k)
    case Won(prev, _) => prev
    case _ => None
  }

  function HeldBy(s: State, c: nat): Option<Key> {
    if c in s.calls then Holds(s.calls[c]) else None
  }

  function AsSet(k: Option<Key>): set<Key> {
    if k.Some? then {k.value} else {}
  }

  function Current(s: State): set<Key> {
    if s.row.None? then {} else AsSet(s.row.value.avatar) + AsSet(s.row.value.header)
  }

  function Set(s: State, c: nat, call: Call): State {
    s.(calls := s.calls[c := call])
  }

  function Enabled(s: State, step: Step): bool {
    match step
    case Begin(c, _, _) => c !in s.calls
    case ReadRow(c, _) => c in s.calls && s.calls[c].Started?
    case UploadObject(c, id, _) => c in s.calls && s.calls[c].Read? && id !in s.used
    case CompareAndSet(c, _) => c in s.calls && s.calls[c].Uploaded?
    case CleanUp(c, _) => c in s.calls && (s.calls[c].Won? || s.calls[c].Lost?)
    case Crash(c) => c in s.calls && !s.calls[c].Done?
  }

  function Do(s: State, step: Step): State
    requires Enabled(s, step)
  {
    match step
    case Begin(c, kind, empty) =>
      Set(s, c, if empty then Done(Err(Validation)) else Started(kind))
    case ReadRow(c, dbError) =>
      var kind := s.calls[c].kind;
      Set(s, c, if dbError then Done(Err(Database))
                else if s.row.None? then Done(Err(NotFound))
                else Read(kind, KeyIn(s.row.value, kind)))
    case UploadObject(c, id, outcome) =>
      var call := s.calls[c];
      var k := Key(call.kind, id);
      var t := s.(used := s.used + {id});
      (match outcome
       case Stored => Set(t.(bucket := t.bucket + {k}), c, Uploaded(call.kind, call.prev, k))
       case Failed => Set(t, c, Done(Err(Storage)))
       case FailedButStored => Set(t.(bucket := t.bucket + {k}, leaked := t.leaked + {k}), c, Done(Err(Storage))))
    case CompareAndSet(c, dbError) =>
      var call := s.calls[c];
      if dbError then Set(s, c, Lost(call.key, Database))
      else if s.row.Some? && KeyIn(s.row.value, call.kind) == call.prev then
        Set(s.(row := Some(SetKey(s.row.value, call.kind, call.key))), c, Won(call.prev, call.key))
      else Set(s, c, Lost(call.key, Validation))
    case CleanUp(c, deleted) =>
      var call := s.calls[c];
      var doomed := AsSet(Holds(call));
      var t := if deleted then s.(bucket := s.bucket - doomed) else s.(leaked := s.leaked + doomed);
      Set(t, c, Done(if call.Won? then Ok(call.key) else Err(call.error)))
    case Crash(c) =>
      Set(s.(leaked := s.leaked + AsSet(HeldBy(s, c))), c, Crashed)
  }

  function Run(s: State, steps: seq<Step>): State
    decreases |steps|
  {
    if steps == [] then s
    else Run(if Enabled(s, steps[0]) then Do(s, steps[0]) else s, steps[1..])
  }

  // ---------------------------------------------------------------------------
  // The invariant
  // ---------------------------------------------------------------------------

  /** No call holds an object that is missing, leaked, named by the row or held by another call. */
  ghost predicate HeldApart(s: State) {
    && (forall c :: HeldBy(s, c).Some? ==>
          HeldBy(s, c).value in s.bucket && HeldBy(s, c).value !in Current(s) && HeldBy(s, c).value !in s.leaked)
    && (forall c, d :: c != d && HeldBy(s, c).Some? ==> HeldBy(s, c) != HeldBy(s, d))
  }

  ghost predicate Owned(s: State, k: Key) {
    k in Current(s) || k in s.leaked || exists c :: HeldBy(s, c) == Some(k)
  }

  ghost predicate WellKeyed(s: State) {
    && (forall k :: k in s.bucket ==> k.id in s.used)
    && (forall c :: c in s.calls && s.calls[c].Uploaded? ==> s.calls[c].key.kind == s.calls[c].kind)
    && (s.row.Some? ==> KindsMatch(s.row.value))
  }

  /** Every object in the bucket has exactly one owner: a column of the row, one call, or the leak. */
  ghost predicate Inv(s: State) {
    && Current(s) <= s.bucket
    && s.leaked <= s.bucket && s.leaked !! Current(s)
    && HeldApart(s)
    && (forall k :: k in s.bucket ==> Owned(s, k))
    && WellKeyed(s)
  }

  predicate KindsMatch(r: Row) {
    (r.avatar.Some? ==> r.avatar.value.kind == Avatar) && (r.header.Some? ==> r.header.value.kind == Header)
  }

  /** With no call under way and storage holding just the row's objects, the invariant holds. */
  lemma IdleIsSound(s: State)
    requires s.calls == map[] && s.leaked == {} && s.bucket == Current(s)
    requires (forall k :: k in s.bucket ==> k.id in s.used) && (s.row.Some? ==> KindsMatch(s.row.value))
    ensures Inv(s)
  {
  }

  lemma HeldByOthers(s: State, t: State, c: nat)
    requires forall d :: d != c ==> (d in s.calls <==> d in t.calls) && (d in s.calls ==> t.calls[d] == s.calls[d])
    ensures forall d :: d != c ==> HeldBy(t, d) == HeldBy(s, d)
  {
  }

  /** An object keeps its owner when nothing it belongs to changes. */
  lemma StaysOwned(s: State, t: State, c: nat, k: Key)
    requires Owned(s, k) && HeldBy(s, c) != Some(k)
    requires forall d :: d != c ==> HeldBy(t, d) == HeldBy(s, d)
    requires k in Current(s) ==> k in Current(t)
    requires s.leaked <= t.leaked
    ensures Owned(t, k)
  {
    if k !in Current(s) && k !in s.leaked {
      var d :| HeldBy(s, d) == Some(k);
      assert HeldBy(t, d) == Some(k);
    }
  }

  lemma UploadKeepsInv(s: State, step: Step)
    requires step.UploadObject? && Enabled(s, step) && Inv(s)
    ensures Inv(Do(s, step))
  {
    var t, c := Do(s, step), step.c;
    var k := Key(s.calls[c].kind, step.id);
    HeldByOthers(s, t, c);
    assert HeldBy(s, c) == None && k !in s.bucket;
    assert HeldBy(t, c) == if step.outcome == Stored then Some(k) else None;
    assert HeldApart(t);
    forall x | x in t.bucket ensures Owned(t, x) {
      if x != k { StaysOwned(s, t, c, x); }
    }
  }

  /** A won compare-and-set trades: the row takes the call's object, the call the row's. */
  lemma WinTrades(s: State, c: nat)
    requires Inv(s) && c in s.calls && s.calls[c].Uploaded? && s.row.Some?
    requires KeyIn(s.row.value, s.calls[c].kind) == s.calls[c].prev
    ensures var call, t := s.calls[c], Do(s, CompareAndSet(c, false));
      && Current(t) == Current(s) - AsSet(call.prev) + {call.key}
      && HeldBy(s, c) == Some(call.key) && HeldBy(t, c) == call.prev
      && (call.prev.Some? ==> call.prev.value in Current(s)) && call.key !in Current(s)
  {
    assert HeldBy(s, c) == Some(s.calls[c].key);
  }

  lemma CompareAndSetKeepsInv(s: State, step: Step)
    requires step.CompareAndSet? && Enabled(s, step) && Inv(s)
    ensures Inv(Do(s, step))
  {
    var t, c := Do(s, step), step.c;
    var call := s.calls[c];
    HeldByOthers(s, t, c);
    assert HeldBy(s, c) == Some(call.key);
    if t.calls[c].Won? {
      WinTrades(s, c);
      assert HeldApart(t);
      forall x | x in t.bucket ensures Owned(t, x) {
        if x != call.key && Some(x) != call.prev { StaysOwned(s, t, c, x); }
      }
    } else {
      assert HeldBy(t, c) == Some(call.key) && Current(t) == Current(s);
      assert HeldApart(t);
      forall x | x in t.bucket ensures Owned(t, x) {
        if x != call.key { StaysOwned(s, t, c, x); }
      }
    }
  }

  lemma ReleaseKeepsInv(s: State, step: Step)
    requires (step.CleanUp? || step.Crash?) && Enabled(s, step) && Inv(s)
    ensures Inv(Do(s, step))
  {
    var t, c := Do(s, step), step.c;
    HeldByOthers(s, t, c);
    assert HeldBy(s, c) == Holds(s.calls[c]) && HeldBy(t, c) == None && Current(t) == Current(s);
    assert HeldApart(t);
    forall x | x in t.bucket ensures Owned(t, x) {
      if HeldBy(s, c) != Some(x) { StaysOwned(s, t, c, x); }
    }
  }

  lemma OpeningKeepsInv(s: State, step: Step)
    requires (step.Begin? || step.ReadRow?) && Enabled(s, step) && Inv(s)
    ensures Inv(Do(s, step))
  {
    var t, c := Do(s, step), step.c;
    HeldByOthers(s, t, c);
    assert HeldBy(s, c) == None == HeldBy(t, c) && Current(t) == Current(s);
    assert HeldApart(t);
    forall x | x in t.bucket ensures Owned(t, x) {
      StaysOwned(s, t, c, x);
    }
  }

  lemma StepKeepsInv(s: State, step: Step)
    requires Enabled(s, step) && Inv(s)
    ensures Inv(Do(s, step))
  {
    match step
    case Begin(_, _, _) => OpeningKeepsInv(s, step);
    case ReadRow(_, _) => OpeningKeepsInv(s, step);
    case UploadObject(_, _, _) => UploadKeepsInv(s, step);
    case CompareAndSet(_, _) => CompareAndSetKeepsInv(s, step);
    case CleanUp(_, _) => ReleaseKeepsInv(s, step);
    case Crash(_) => ReleaseKeepsInv(s, step);
  }

  /** Under any interleaving, with any failures and crashes, the row only ever names objects that
      are in storage. */
  lemma {:induction false} RowNamesStoredObjects(s: State, steps: seq<Step>)
    requires Inv(s)
    ensures Inv(Run(s, steps)) && Current(Run(s, steps)) <= Run(s, steps).bucket
    decreases |steps|
  {
    if steps != [] {
      if Enabled(s, steps[0]) {
        StepKeepsInv(s, steps[0]);
        RowNamesStoredObjects(Do(s, steps[0]), steps[1..]);
      } else {
        RowNamesStoredObjects(s, steps[1..]);
      }
    }
  }

  predicate Faultless(step: Step) {
    match step
    case UploadObject(_, _, outcome) => outcome != FailedButStored
    case CleanUp(_, deleted) => deleted
    case Crash(_) => false
    case _ => true
  }

  lemma {:induction false} FaultlessRunsLeakNothing(s: State, steps: seq<Step>)
    requires s.leaked == {} && forall i :: 0 <= i < |steps| ==> Faultless(steps[i])
    ensures Run(s, steps).leaked == {}
    decreases |steps|
  {
    if steps != [] {
      assert Faultless(steps[0]);
      FaultlessRunsLeakNothing(if Enabled(s, steps[0]) then Do(s, steps[0]) else s, steps[1..]);
    }
  }

  predicate Quiescent(s: State) {
    forall c :: c in s.calls ==> s.calls[c].Done? || s.calls[c].Crashed?
  }

  /** Once every call has finished, storage holds exactly the row's objects and what faults leaked;
      without a failed delete, a crash or a half-failed upload, exactly the row's objects. */
  lemma StorageSettles(s: State, steps: seq<Step>)
    requires Inv(s) && Quiescent(Run(s, steps))
    ensures Run(s, steps).bucket == Current(Run(s, steps)) + Run(s, steps).leaked
    ensures s.leaked == {} && (forall i :: 0 <= i < |steps| ==> Faultless(steps[i])) ==>
      Run(s, steps).bucket == Current(Run(s, steps))
  {
    RowNamesStoredObjects(s, steps);
    var t := Run(s, steps);
    assert forall c :: HeldBy(t, c) == None;
    if s.leaked == {} && forall i :: 0 <= i < |steps| ==> Faultless(steps[i]) {
      FaultlessRunsLeakNothing(s, steps);
    }
  }

  /** The compare-and-set of `c`, done now, replaces the image that `c` read. */
  predicate Wins(s: State, c: nat) {
    && Enabled(s, CompareAndSet(c, false))
    && s.row.Some? && KeyIn(s.row.value, s.calls[c].kind) == s.calls[c].prev
  }

  /** The image `prev`, or the lack of one, is past: the row no longer shows it and no call can bring
      it back. */
  ghost predicate Past(s: State, kind: Kind, prev: Option<Key>) {
    && s.row.Some? && KeyIn(s.row.value, kind) != prev
    && (prev.Some? ==> prev.value.id in s.used)
    && forall c :: c in s.calls && s.calls[c].Uploaded? ==> Some(s.calls[c].key) != prev
  }

  lemma WinMakesPast(s: State, c: nat)
    requires Inv(s) && Wins(s, c)
    ensures Past(Do(s, CompareAndSet(c, false)), s.calls[c].kind, s.calls[c].prev)
  {
    var prev := s.calls[c].prev;
    assert HeldBy(s, c) == Some(s.calls[c].key);
    if prev.Some? {
      assert prev.value in Current(s) && prev.value in s.bucket;
      forall d | d in s.calls && s.calls[d].Uploaded? ensures s.calls[d].key != prev.value {
        assert HeldBy(s, d) == Some(s.calls[d].key);
      }
    }
  }

  lemma StepKeepsPast(s: State, step: Step, kind: Kind, prev: Option<Key>)
    requires Enabled(s, step) && Past(s, kind, prev)
    ensures Past(Do(s, step), kind, prev)
  {
  }

  lemma {:induction false} RunKeepsPast(s: State, steps: seq<Step>, kind: Kind, prev: Option<Key>)
    requires Past(s, kind, prev)
    ensures Past(Run(s, steps), kind, prev)
    decreases |steps|
  {
    if steps != [] {
      if Enabled(s, steps[0]) {
        StepKeepsPast(s, steps[0], kind, prev);
        RunKeepsPast(Do(s, steps[0]), steps[1..], kind, prev);
      } else {
        RunKeepsPast(s, steps[1..], kind, prev);
      }
    }
  }

  /** Of all the calls that ever read one image, or found none, at most one replaces it: whoever wins
      at any later time had read something else. */
  lemma OneWinnerPerImage(s: State, c: nat, later: seq<Step>, d: nat)
    requires Inv(s) && Wins(s, c)
    requires var u := Run(Do(s, CompareAndSet(c, false)), later); Wins(u, d) && u.calls[d].kind == s.calls[c].kind
    ensures Run(Do(s, CompareAndSet(c, false)), later).calls[d].prev != s.calls[c].prev
  {
    WinMakesPast(s, c);
    RunKeepsPast(Do(s, CompareAndSet(c, false)), later, s.calls[c].kind, s.calls[c].prev);
  }

  /** The winner's object is what the row then shows in that column, the other column stays as it was,
      and this is the key its caller is told. */
  lemma WinnerIsInstalled(s: State, c: nat, deleted: bool)
    requires Wins(s, c)
    ensures var (call, t) := (s.calls[c], Do(s, CompareAndSet(c, false)));
      && t.row.Some? && KeyIn(t.row.value, call.kind) == Some(call.key)
      && (forall other :: other != call.kind ==> KeyIn(t.row.value, other) == KeyIn(s.row.value, other))
      && Enabled(t, CleanUp(c, deleted)) && Do(t, CleanUp(c, deleted)).calls[c] == Done(Ok(call.key))
  {
  }

  /** The steps of a call that nothing disturbs. */
  function LoneSteps(c: nat, kind: Kind, id: nat): seq<Step> {
    [Begin(c, kind, false), ReadRow(c, false), UploadObject(c, id, Stored), CompareAndSet(c, false), CleanUp(c, true)]
  }

  lemma RunCons(s: State, steps: seq<Step>)
    requires steps != [] && Enabled(s, steps[0])
    ensures Run(s, steps) == Run(Do(s, steps[0]), steps[1..])
  {
  }

  /** A call that nothing disturbs puts its image in the place of the old one, and leaves the other
      column and every other object alone. */
  lemma LoneCallReplaces(s: State, c: nat, kind: Kind, id: nat)
    requires c !in s.calls && id !in s.used && s.row.Some?
    ensures var (u, key) := (Run(s, LoneSteps(c, kind, id)), Key(kind, id));
      && u.row == Some(SetKey(s.row.value, kind, key)) && KeyIn(u.row.value, kind) == Some(key)
      && u.bucket == s.bucket + {key} - AsSet(KeyIn(s.row.value, kind)) && u.leaked == s.leaked
      && u.calls == s.calls[c := Done(Ok(key))]
  {
    var steps := LoneSteps(c, kind, id);
    var before, key := KeyIn(s.row.value, kind), Key(kind, id);
    var s1 := Do(s, steps[0]);
    var s2 := Do(s1, steps[1]);
    var s3 := Do(s2, steps[2]);
    assert s3 == s.(used := s.used + {id}, bucket := s.bucket + {key}, calls := s.calls[c := Uploaded(kind, before, key)]);
    RunCons(s, steps);
    RunCons(s1, steps[1..]);
    RunCons(s2, steps[2..]);
    assert steps[1..][1..] == steps[2..] && steps[2..][1..] == steps[3..];
    FinishLone(s3, c, kind, before, key, steps[3..]);
  }

  lemma FinishLone(s: State, c: nat, kind: Kind, prev: Option<Key>, key: Key, steps: seq<Step>)
    requires c in s.calls && s.calls[c] == Uploaded(kind, prev, key) && s.row.Some? && KeyIn(s.row.value, kind) == prev
    requires steps == [CompareAndSet(c, false), CleanUp(c, true)]
    ensures Run(s, steps)
         == s.(row := Some(SetKey(s.row.value, kind, key)), bucket := s.bucket - AsSet(prev), calls := s.calls[c := Done(Ok(key))])
  {
    var t := Do(s, steps[0]);
    RunCons(s, steps);
    RunCons(t, steps[1..]);
    assert steps[1..][0] == CleanUp(c, true) && steps[1..][1..] == [];
    assert Do(t, CleanUp(c, true)).calls == s.calls[c := Done(Ok(key))];
  }

  /** The call has read that image, or has failed. */
  predicate Beaten(s: State, kind: Kind, prev: Option<Key>, d: nat) {
    d in s.calls &&
    match s.calls[d]
    case Read(k, p) => k == kind && p == prev
    case Uploaded(k, p, _) => k == kind && p == prev
    case Lost(_, _) => true
    case Done(r) => r.Err?
    case Crashed => true
    case _ => false
  }

  lemma {:induction false} StaysBeaten(s: State, steps: seq<Step>, kind: Kind, prev: Option<Key>, d: nat)
    requires Past(s, kind, prev) && Beaten(s, kind, prev, d)
    ensures Beaten(Run(s, steps), kind, prev, d)
    decreases |steps|
  {
    if steps != [] {
      if Enabled(s, steps[0]) {
        StepKeepsPast(s, steps[0], kind, prev);
        StepKeepsBeaten(s, steps[0], kind, prev, d);
        StaysBeaten(Do(s, steps[0]), steps[1..], kind, prev, d);
      } else {
        StaysBeaten(s, steps[1..], kind, prev, d);
      }
    }
  }

  lemma StepKeepsBeaten(s: State, step: Step, kind: Kind, prev: Option<Key>, d: nat)
    requires Enabled(s, step) && Past(s, kind, prev) && Beaten(s, kind, prev, d)
    ensures Beaten(Do(s, step), kind, prev, d)
  {
  }

  /** And every other call that had read the image by then is never told Ok. */
  lemma LosersAreToldSo(s: State, c: nat, later: seq<Step>, d: nat)
    requires Inv(s) && Wins(s, c) && d != c && Beaten(s, s.calls[c].kind, s.calls[c].prev, d)
    ensures var u := Run(Do(s, CompareAndSet(c, false)), later);
      d in u.calls && !u.calls[d].Won? && (u.calls[d].Done? ==> u.calls[d].result.Err?)
  {
    WinMakesPast(s, c);
    StaysBeaten(Do(s, CompareAndSet(c, false)), later, s.calls[c].kind, s.calls[c].prev, d);
  }

  /** The hypothesis that a database error means no change is needed: if the row was updated and
      the error reported all the same, the roll-back deletes the object the row now names. */
  lemma CommittedErrorDangles(s: State, c: nat)
    requires Inv(s) && c in s.calls && s.calls[c].Uploaded? && s.row.Some?
    requires KeyIn(s.row.value, s.calls[c].kind) == s.calls[c].prev
    ensures var call := s.calls[c];
      var committed := Set(s.(row := Some(SetKey(s.row.value, call.kind, call.key))), c, Lost(call.key, Database));
      !(Current(Do(committed, CleanUp(c, true))) <= Do(committed, CleanUp(c, true)).bucket)
  {
    var call := s.calls[c];
    var committed := Set(s.(row := Some(SetKey(s.row.value, call.kind, call.key))), c, Lost(call.key, Database));
    assert call.key in Current(Do(committed, CleanUp(c, true)));
  }

  // ---------------------------------------------------------------------------
  // One call as a program
  // ---------------------------------------------------------------------------

  /** What the outside world does to one call. */
  datatype Fate = Fate(readError: bool, upload: Upload, casError: bool, deleteWorks: bool)

  /** The steps other calls take between this call's awaits. */
  datatype Others = Others(beforeRead: seq<Step>, beforeUpload: seq<Step>, beforeCas: seq<Step>, beforeCleanUp: seq<Step>)

  predicate NotBy(c: nat, steps: seq<Step>) {
    forall i :: 0 <= i < |steps| ==> steps[i].c != c
  }

  lemma {:induction false} OthersLeaveCall(s: State, steps: seq<Step>, c: nat)
    requires NotBy(c, steps) && c in s.calls
    ensures c in Run(s, steps).calls && Run(s, steps).calls[c] == s.calls[c]
    decreases |steps|
  {
    if steps != [] {
      assert steps[0].c != c;
      OthersLeaveCall(if Enabled(s, steps[0]) then Do(s, steps[0]) else s, steps[1..], c);
    }
  }

  lemma FreshIdExists(used: set<nat>)
    ensures exists id: nat :: id !in used
  {
    var bound := Above(used);
  }

  lemma {:induction false} Above(used: set<nat>) returns (bound: nat)
    ensures forall id :: id in used ==> id < bound
    ensures bound !in used
  {
    bound := 0;
    if used != {} {
      var x :| x in used;
      var b := Above(used - {x});
      bound := if b <= x then x + 1 else b;
      forall id | id in used ensures id < bound { assert id == x || id in used - {x}; }
    }
  }

  class Server {
    var s: State

    /** Other calls run while this one awaits. */
    method Await(c: nat, steps: seq<Step>)
      requires Inv(s) && NotBy(c, steps) && c in s.calls
      modifies this
      ensures s == Run(old(s), steps) && Inv(s) && c in s.calls && s.calls[c] == old(s).calls[c]
    {
      OthersLeaveCall(s, steps, c);
      RowNamesStoredObjects(s, steps);
      var rest := steps;
      while rest != []
        invariant Run(s, rest) == Run(old(s), steps)
        decreases |rest|
      {
        if Enabled(s, rest[0]) { s := Do(s, rest[0]); }
        rest := rest[1..];
      }
    }

    method GetAccount(c: nat, fails: bool) returns (r: Result<Row, AppError>)
      requires Inv(s) && c in s.calls && s.calls[c].Started?
      modifies this
      ensures s == Do(old(s), ReadRow(c, fails)) && Inv(s)
      ensures r == if fails then Err(Database) else if old(s).row.None? then Err(NotFound) else Ok(old(s).row.value)
    {
      StepKeepsInv(s, ReadRow(c, fails));
      r := if fails then Err(Database) else if s.row.None? then Err(NotFound) else Ok(s.row.value);
      s := Set(s, c, if r.Err? then Done(Err(r.error)) else Read(s.calls[c].kind, KeyIn(r.value, s.calls[c].kind)));
    }

    method UploadImage(c: nat, kind: Kind, outcome: Upload) returns (r: Result<Key, AppError>, ghost id: nat)
      requires Inv(s) && c in s.calls && s.calls[c].Read? && s.calls[c].kind == kind
      modifies this
      ensures id !in old(s).used && s == Do(old(s), UploadObject(c, id, outcome)) && Inv(s)
      ensures r == if outcome == Stored then Ok(Key(kind, id)) else Err(Storage)
    {
      FreshIdExists(s.used);
      var unused: nat :| unused !in s.used;
      id := unused;
      StepKeepsInv(s, UploadObject(c, unused, outcome));
      s := Do(s, UploadObject(c, unused, outcome));
      r := if outcome == Stored then Ok(Key(kind, unused)) else Err(Storage);
    }

    /** The conditional UPDATE of one image column. */
    method UpdateKeyIfMatches(c: nat, kind: Kind, expected: Option<Key>, key: Key, fails: bool)
      returns (r: Result<bool, AppError>)
      requires Inv(s) && c in s.calls && s.calls[c] == Uploaded(kind, expected, key)
      modifies this
      ensures s == Do(old(s), CompareAndSet(c, fails)) && Inv(s)
      ensures r == if fails then Err(Database)
                   else Ok(old(s).row.Some? && KeyIn(old(s).row.value, kind) == expected)
    {
      StepKeepsInv(s, CompareAndSet(c, fails));
      if fails {
        s := Set(s, c, Lost(key, Database));
        return Err(Database);
      }
      if s.row.Some? && KeyIn(s.row.value, kind) == expected {
        s := Set(s.(row := Some(SetKey(s.row.value, kind, key))), c, Won(expected, key));
        return Ok(true);
      }
      s := Set(s, c, Lost(key, Validation));
      r := Ok(false);
    }

    method Delete(c: nat, works: bool)
      requires Inv(s) && c in s.calls && (s.calls[c].Won? || s.calls[c].Lost?)
      modifies this
      ensures s == Do(old(s), CleanUp(c, works)) && Inv(s)
    {
      StepKeepsInv(s, CleanUp(c, works));
      s := Do(s, CleanUp(c, works));
    }

    method Start(c: nat, kind: Kind, empty: bool)
      requires Inv(s) && c !in s.calls
      modifies this
      ensures s == Do(old(s), Begin(c, kind, empty)) && Inv(s)
    {
      StepKeepsInv(s, Begin(c, kind, empty));
      s := Set(s, c, if empty then Done(Err(Validation)) else Started(kind));
    }

    /** From the upload on: install the new object if the row still holds `previous`, and delete
        whichever of the two lost. */
    method Replace(c: nat, kind: Kind, previous: Option<Key>, fate: Fate, others: Others)
      returns (r: Result<Key, AppError>, installed: bool)
      requires Inv(s) && c in s.calls && s.calls[c] == Read(kind, previous)
      requires NotBy(c, others.beforeCas) && NotBy(c, others.beforeCleanUp)
      modifies this
      ensures Inv(s) && c in s.calls && s.calls[c] == Done(r)
      ensures r.Ok? <==> installed
      ensures r.Ok? ==> r.value.kind == kind
    {
      installed := false;
      var upload, _ := UploadImage(c, kind, fate.upload);
      if upload.Err? {
        return Err(upload.error), false;
      }
      Await(c, others.beforeCas);
      var updated := UpdateKeyIfMatches(c, kind, previous, upload.value, fate.casError);
      installed := updated == Ok(true);
      Await(c, others.beforeCleanUp);
      Delete(c, fate.deleteWorks);
      r := s.calls[c].result;
    }

    /** `update_avatar` and `update_header`. Whatever the other calls do meanwhile and whatever
        fails, row and storage stay consistent; the caller is told Ok exactly when its
        compare-and-set went through, and the call ends owning nothing. */
    method UpdateImage(c: nat, kind: Kind, empty: bool, fate: Fate, others: Others)
      returns (r: Result<Key, AppError>, installed: bool)
      requires Inv(s) && c !in s.calls
      requires NotBy(c, others.beforeRead) && NotBy(c, others.beforeUpload)
      requires NotBy(c, others.beforeCas) && NotBy(c, others.beforeCleanUp)
      modifies this
      ensures Inv(s) && c in s.calls && s.calls[c] == Done(r)
      ensures r.Ok? <==> installed
      ensures empty ==> r == Err(Validation)
      ensures r.Ok? ==> r.value.kind == kind
    {
      Start(c, kind, empty);
      if empty {
        return Err(Validation), false;
      }
      Await(c, others.beforeRead);
      var account := GetAccount(c, fate.readError);
      if account.Err? {
        return Err(account.error), false;
      }
      Await(c, others.beforeUpload);
      r, installed := Replace(c, kind, KeyIn(account.value, kind), fate, others);
    }
  }
}
