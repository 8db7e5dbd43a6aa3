/** Reply chains: the thread a status belongs to, and muting a thread through any of its members. */
module Threads {
  import opened Wrappers

  type Uri = string

  /** The persisted statuses: each URI with the URI it replies to (`uri` is UNIQUE). */
  type Replies = map<Uri, Option<Uri>>

  /** The parent a persisted status names, if any. */
  function ParentOf(g: Replies, u: Uri): Option<Uri> {
    if u in g then g[u] else None
  }

  /** The chain walk of `resolve_thread_root_uri`, from `thread` with the next parent to visit. */
  function Walk(g: Replies, thread: Uri, parent: Option<Uri>, seen: set<Uri>): Uri
    decreases |g.Keys - seen|, if parent.Some? && parent.value in seen then 0 else 1
  {
    match parent
    case None => thread
    case Some(p) =>
      if p in seen then thread
      else if p !in g then p
      else
        assert g.Keys - (seen + {p}) < g.Keys - seen by { assert p in g.Keys - seen; }
        assert |g.Keys - (seen + {p})| < |g.Keys - seen| by {
          assert g.Keys - seen == (g.Keys - (seen + {p})) + {p};
        }
        Walk(g, p, g[p], seen + {p})
  }

  function Root(g: Replies, u: Uri): Uri {
    Walk(g, u, ParentOf(g, u), {u})
  }

  /** The loop terminates on every reply graph: each turn uses up a persisted URI not yet seen. */
  method ResolveThreadRootUri(g: Replies, uri: Uri, inReplyTo: Option<Uri>) returns (thread: Uri)
    ensures thread == Walk(g, uri, inReplyTo, {uri})
  {
    thread := uri;
    var current := inReplyTo;
    var seen := {uri};
    while current.Some?
      invariant Walk(g, thread, current, seen) == Walk(g, uri, inReplyTo, {uri})
      decreases |g.Keys - seen|, current.Some?
    {
      var p := current.value;
      if p in seen { break; }
      seen := seen + {p};
      thread := p;
      if p !in g { break; }
      assert g.Keys - (seen - {p}) == (g.Keys - seen) + {p};
      current := g[p];
    }
  }

  // ---------------------------------------------------------------------------
  // When the root is shared with the parent
  // ---------------------------------------------------------------------------

  /** The n-th ancestor. */
  function Up(g: Replies, u: Uri, n: nat): Option<Uri>
    decreases n
  {
    if n == 0 then Some(u)
    else match ParentOf(g, u)
         case None => None
         case Some(p) => Up(g, p, n - 1)
  }

  ghost predicate OnCycle(g: Replies, u: Uri) {
    exists n: nat :: n > 0 && Up(g, u, n) == Some(u)
  }

  /** The status is its own ancestor through at least one other status. */
  ghost predicate InReplyLoop(g: Replies, u: Uri) {
    OnCycle(g, u) && ParentOf(g, u) != Some(u)
  }

  /** The walk from `parent` visits `u` before it stops. */
  predicate Meets(g: Replies, parent: Option<Uri>, seen: set<Uri>, u: Uri)
    decreases |g.Keys - seen|, if parent.Some? && parent.value in seen then 0 else 1
  {
    match parent
    case None => false
    case Some(p) =>
      p !in seen && (p == u || (p in g &&
        (assert g.Keys - seen == (g.Keys - (seen + {p})) + {p};
         Meets(g, g[p], seen + {p}, u))))
  }

  /** What leaving `u` out of the seen set does to a walk: nothing, unless it meets `u`. */
  lemma {:induction false} WalkWithout(
    g: Replies, thread: Uri, parent: Option<Uri>, seen: set<Uri>, u: Uri, p: Uri)
    requires u in g && g[u] == Some(p) && p in seen && u !in seen && thread != u
    ensures Meets(g, parent, seen, u) ==>
      Walk(g, thread, parent, seen) == u && Walk(g, thread, parent, seen + {u}) != u
    ensures !Meets(g, parent, seen, u) ==>
      Walk(g, thread, parent, seen) == Walk(g, thread, parent, seen + {u})
    decreases |g.Keys - seen|
  {
    if parent.Some? && parent.value !in seen && parent.value != u && parent.value in g {
      var q := parent.value;
      assert g.Keys - seen == (g.Keys - (seen + {q})) + {q};
      WalkWithout(g, q, g[q], seen + {q}, u, p);
      assert seen + {q} + {u} == seen + {u} + {q};
    }
  }

  lemma {:induction false} MeetingClosesLoop(g: Replies, u: Uri, from: Uri, parent: Option<Uri>, seen: set<Uri>, n: nat)
    requires Up(g, u, n) == Some(from) && parent == ParentOf(g, from) && Meets(g, parent, seen, u)
    ensures OnCycle(g, u)
    decreases |g.Keys - seen|
  {
    var q := parent.value;
    UpOneMore(g, u, n);
    if q == u {
      assert Up(g, u, n + 1) == Some(u);
    } else {
      assert g.Keys - seen == (g.Keys - (seen + {q})) + {q};
      MeetingClosesLoop(g, u, q, g[q], seen + {q}, n + 1);
    }
  }

  lemma {:induction false} UpOneMore(g: Replies, u: Uri, n: nat)
    ensures Up(g, u, n + 1) == if Up(g, u, n).Some? then ParentOf(g, Up(g, u, n).value) else None
    decreases n
  {
    if n > 0 && ParentOf(g, u).Some? { UpOneMore(g, ParentOf(g, u).value, n - 1); }
  }

  lemma {:induction false} ClosedUnderParents(g: Replies, s: set<Uri>, u: Uri, n: nat)
    requires u in s && forall x :: x in s && ParentOf(g, x).Some? ==> ParentOf(g, x).value in s
    ensures Up(g, u, n).Some? ==> Up(g, u, n).value in s
    decreases n
  {
    if n > 0 && ParentOf(g, u).Some? { ClosedUnderParents(g, s, ParentOf(g, u).value, n - 1); }
  }

  /** A walk that stops without meeting `u` has closed off every way to reach it. */
  lemma {:induction false} UnmetIsUnreachable(g: Replies, parent: Option<Uri>, seen: set<Uri>, u: Uri, from: Uri, n: nat)
    requires u !in seen && from in seen && !Meets(g, parent, seen, u)
    requires forall x :: x in seen && ParentOf(g, x).Some? ==> ParentOf(g, x).value in seen || ParentOf(g, x) == parent
    ensures Up(g, from, n) != Some(u)
    decreases |g.Keys - seen|
  {
    if parent.None? || parent.value in seen {
      ClosedUnderParents(g, seen, from, n);
    } else if parent.value !in g {
      ClosedUnderParents(g, seen + {parent.value}, from, n);
    } else {
      var q := parent.value;
      assert g.Keys - seen == (g.Keys - (seen + {q})) + {q};
      UnmetIsUnreachable(g, g[q], seen + {q}, u, from, n);
    }
  }

  /** A status and its parent resolve to the same thread, exactly when the status is not in a reply
      loop of two or more. */
  lemma RootOfParentIff(g: Replies, u: Uri)
    requires ParentOf(g, u).Some?
    ensures Root(g, u) == Root(g, ParentOf(g, u).value) <==> !InReplyLoop(g, u)
  {
    var p := ParentOf(g, u).value;
    if p != u {
      var seen := {p};
      assert {u} + {p} == seen + {u};
      WalkWithout(g, p, ParentOf(g, p), seen, u, p);
      assert Root(g, u) == Walk(g, p, ParentOf(g, p), seen + {u});
      if Meets(g, ParentOf(g, p), seen, u) {
        assert Up(g, u, 1) == Some(p) by { assert Up(g, p, 0) == Some(p); }
        MeetingClosesLoop(g, u, p, ParentOf(g, p), seen, 1);
      } else if OnCycle(g, u) {
        var n: nat :| n > 0 && Up(g, u, n) == Some(u);
        UnmetIsUnreachable(g, ParentOf(g, p), seen, u, p, n - 1);
      }
    }
  }

  // ---------------------------------------------------------------------------
  // Muting
  // ---------------------------------------------------------------------------

  predicate Linked(g: Replies, a: Uri, b: Uri) {
    ParentOf(g, a) == Some(b) || ParentOf(g, b) == Some(a)
  }

  predicate IsReplyPath(g: Replies, path: seq<Uri>) {
    |path| > 0 && forall i :: 0 < i < |path| ==> Linked(g, path[i - 1], path[i])
  }

  /** The two URIs belong to one tree of replies. */
  ghost predicate SameThread(g: Replies, a: Uri, b: Uri) {
    exists path :: IsReplyPath(g, path) && path[0] == a && path[|path| - 1] == b
  }

  ghost predicate LoopFree(g: Replies) {
    forall u :: u in g ==> !InReplyLoop(g, u)
  }

  lemma {:induction false} PathSharesRoot(g: Replies, path: seq<Uri>)
    requires LoopFree(g) && IsReplyPath(g, path)
    ensures Root(g, path[0]) == Root(g, path[|path| - 1])
    decreases |path|
  {
    if |path| > 1 {
      var front := path[..|path| - 1];
      assert IsReplyPath(g, front);
      PathSharesRoot(g, front);
      var a, b := path[|path| - 2], path[|path| - 1];
      assert Linked(g, a, b);
      RootOfParentIff(g, if ParentOf(g, a) == Some(b) then a else b);
    }
  }

  lemma {:induction false} WalkStaysInThread(
    g: Replies, u: Uri, thread: Uri, parent: Option<Uri>, seen: set<Uri>, path: seq<Uri>)
    returns (longer: seq<Uri>)
    requires IsReplyPath(g, path) && path[0] == u && path[|path| - 1] == thread && parent == ParentOf(g, thread)
    ensures IsReplyPath(g, longer) && longer[0] == u && longer[|longer| - 1] == Walk(g, thread, parent, seen)
    decreases |g.Keys - seen|
  {
    longer := path;
    if parent.Some? && parent.value !in seen {
      var p := parent.value;
      longer := path + [p];
      if p in g {
        assert g.Keys - seen == (g.Keys - (seen + {p})) + {p};
        longer := WalkStaysInThread(g, u, p, g[p], seen + {p}, longer);
      }
    }
  }

  function Reverse(path: seq<Uri>): (r: seq<Uri>)
    ensures |r| == |path| && forall i :: 0 <= i < |r| ==> r[i] == path[|path| - 1 - i]
  {
    seq(|path|, i requires 0 <= i < |path| => path[|path| - 1 - i])
  }

  lemma ReversePath(g: Replies, path: seq<Uri>)
    requires IsReplyPath(g, path)
    ensures IsReplyPath(g, Reverse(path))
  {
    var down := Reverse(path);
    forall i | 0 < i < |down| ensures Linked(g, down[i - 1], down[i]) {
      assert Linked(g, path[|path| - 1 - i], path[|path| - i]);
    }
  }

  /** Two paths that end at one place make a path between their starts. */
  lemma JoinPaths(g: Replies, up: seq<Uri>, fromB: seq<Uri>) returns (path: seq<Uri>)
    requires IsReplyPath(g, up) && IsReplyPath(g, fromB) && up[|up| - 1] == fromB[|fromB| - 1]
    ensures IsReplyPath(g, path) && path[0] == up[0] && path[|path| - 1] == fromB[0]
  {
    ReversePath(g, fromB);
    var down := Reverse(fromB);
    path := up[..|up| - 1] + down;
    forall i | 0 < i < |path| ensures Linked(g, path[i - 1], path[i]) {
      if i >= |up| {
        assert Linked(g, down[i - |up|], down[i - |up| + 1]);
      } else {
        assert Linked(g, up[i - 1], up[i]);
      }
    }
  }

  /** In a table without reply loops, `resolve_thread_root_uri` tells threads apart exactly. */
  lemma RootIdentifiesThread(g: Replies, a: Uri, b: Uri)
    requires LoopFree(g)
    ensures Root(g, a) == Root(g, b) <==> SameThread(g, a, b)
  {
    if SameThread(g, a, b) {
      var path :| IsReplyPath(g, path) && path[0] == a && path[|path| - 1] == b;
      PathSharesRoot(g, path);
    }
    if Root(g, a) == Root(g, b) {
      var up := WalkStaysInThread(g, a, a, ParentOf(g, a), {a}, [a]);
      var fromB := WalkStaysInThread(g, b, b, ParentOf(g, b), {b}, [b]);
      var path := JoinPaths(g, up, fromB);
    }
  }

  function Mute(g: Replies, muted: set<Uri>, u: Uri): set<Uri> {
    muted + {Root(g, u)}
  }

  function Unmute(g: Replies, muted: set<Uri>, u: Uri): set<Uri> {
    muted - {Root(g, u)}
  }

  predicate Hidden(g: Replies, muted: set<Uri>, u: Uri) {
    Root(g, u) in muted
  }

  /** Muting through any member hides exactly that member's thread besides what was hidden, and
      unmuting through any other member brings the thread back and restores the mute list. */
  lemma MuteThroughAnyMember(g: Replies, muted: set<Uri>, member: Uri, other: Uri, u: Uri)
    requires LoopFree(g) && SameThread(g, member, other)
    ensures Hidden(g, Mute(g, muted, member), u) <==> Hidden(g, muted, u) || SameThread(g, member, u)
    ensures Hidden(g, Unmute(g, muted, other), u) <==> Hidden(g, muted, u) && !SameThread(g, member, u)
    ensures !Hidden(g, muted, member) ==> Unmute(g, Mute(g, muted, member), other) == muted
  {
    RootIdentifiesThread(g, member, other);
    RootIdentifiesThread(g, member, u);
  }

  /** With two statuses replying to each other, muting one does not hide the other. */
  lemma LoopEscapesMute()
    ensures var g: Replies := map["a" := Some("b"), "b" := Some("a")];
      SameThread(g, "a", "b") && Hidden(g, Mute(g, {}, "a"), "a") && !Hidden(g, Mute(g, {}, "a"), "b")
  {
    var g: Replies := map["a" := Some("b"), "b" := Some("a")];
    assert IsReplyPath(g, ["a", "b"]);
    assert Root(g, "a") == Walk(g, "b", Some("a"), {"a"} + {"b"}) == "b";
    assert Root(g, "b") == Walk(g, "a", Some("b"), {"b"} + {"a"}) == "a";
  }

  // ---------------------------------------------------------------------------
  // Statuses that come and go while a thread is muted
  // ---------------------------------------------------------------------------

  lemma {:induction false} UpStaysUp(g: Replies, p: Uri, parent: Option<Uri>, u: Uri, n: nat)
    requires p !in g && Up(g, u, n).Some?
    ensures Up(g[p := parent], u, n) == Up(g, u, n)
    decreases n
  {
    if n > 0 { UpStaysUp(g, p, parent, ParentOf(g, u).value, n - 1); }
  }

  lemma LoopFreeBefore(g: Replies, p: Uri, parent: Option<Uri>)
    requires p !in g && LoopFree(g[p := parent])
    ensures LoopFree(g)
  {
    forall u | u in g ensures !InReplyLoop(g, u) {
      if OnCycle(g, u) {
        var n: nat :| n > 0 && Up(g, u, n) == Some(u);
        UpStaysUp(g, p, parent, u, n);
        assert OnCycle(g[p := parent], u) && !InReplyLoop(g[p := parent], u);
      }
    }
  }

  /** A walk never comes back to what it has seen. */
  lemma {:induction false} WalkLeaves(g: Replies, thread: Uri, parent: Option<Uri>, seen: set<Uri>, r: Uri)
    requires r in seen && thread != r
    ensures Walk(g, thread, parent, seen) != r
    decreases |g.Keys - seen|
  {
    if parent.Some? && parent.value !in seen && parent.value in g {
      var q := parent.value;
      assert g.Keys - seen == (g.Keys - (seen + {q})) + {q};
      WalkLeaves(g, q, g[q], seen + {q}, r);
    }
  }

  /** Only a status that names no parent but itself is a root. */
  lemma RootEndsThere(g: Replies, r: Uri)
    requires Root(g, r) == r
    ensures ParentOf(g, r) == None || ParentOf(g, r) == Some(r)
  {
    var parent := ParentOf(g, r);
    if parent.Some? && parent.value != r && parent.value in g {
      WalkLeaves(g, parent.value, g[parent.value], {r} + {parent.value}, r);
    }
  }

  /** Storing a status that was missing moves the threads that ended at it to its own root, and no
      others. */
  lemma RootAfterInsert(g: Replies, p: Uri, parent: Option<Uri>, u: Uri)
    requires p !in g && LoopFree(g[p := parent])
    ensures Root(g[p := parent], u) == if Root(g, u) == p then Root(g[p := parent], p) else Root(g, u)
  {
    var more, r := g[p := parent], Root(g, u);
    LoopFreeBefore(g, p, parent);
    var path := WalkStaysInThread(g, u, u, ParentOf(g, u), {u}, [u]);
    PathSharesRoot(g, path);
    forall i | 0 < i < |path| ensures Linked(more, path[i - 1], path[i]) {
      assert Linked(g, path[i - 1], path[i]);
    }
    PathSharesRoot(more, path);
    RootEndsThere(g, r);
  }

  /** Every status that is hidden in `before` is hidden in `after`. */
  ghost predicate KeepsHidden(before: Replies, after: Replies, muted: set<Uri>) {
    forall u :: Hidden(before, muted, u) ==> Hidden(after, muted, u)
  }

  /** Storing a missing status keeps what is hidden hidden, exactly when its URI is not itself on the
      mute list or the root it gets is. */
  lemma InsertKeepsHiddenIff(g: Replies, muted: set<Uri>, p: Uri, parent: Option<Uri>)
    requires p !in g && LoopFree(g[p := parent])
    ensures KeepsHidden(g, g[p := parent], muted) <==> p !in muted || Root(g[p := parent], p) in muted
  {
    var more := g[p := parent];
    assert Root(g, p) == p;
    assert Hidden(g, muted, p) <==> p in muted;
    forall u ensures Hidden(more, muted, u) <==> if Root(g, u) == p then Root(more, p) in muted else Hidden(g, muted, u) {
      RootAfterInsert(g, p, parent, u);
    }
  }

  /** Deleting a status keeps what is hidden hidden, exactly when its thread is not muted or its own
      URI is on the mute list. */
  lemma DeleteKeepsHiddenIff(g: Replies, muted: set<Uri>, p: Uri)
    requires p in g && LoopFree(g)
    ensures KeepsHidden(g, g - {p}, muted) <==> !Hidden(g, muted, p) || p in muted
  {
    var less := g - {p};
    assert less[p := g[p]] == g;
    assert Root(less, p) == p;
    assert Hidden(less, muted, p) <==> p in muted;
    forall u ensures Hidden(g, muted, u) <==> if Root(less, u) == p then Hidden(g, muted, p) else Hidden(less, muted, u) {
      RootAfterInsert(less, p, g[p], u);
    }
  }

  /** The mute is lost when the missing parent of a muted status arrives and turns out to be a reply. */
  lemma ArrivingParentUnmutes()
    ensures var g: Replies := map["a" := Some("p")];
      var muted := Mute(g, {}, "a");
      Hidden(g, muted, "a") && !Hidden(g["p" := Some("q")], muted, "a")
  {
    var g: Replies := map["a" := Some("p")];
    var more := g["p" := Some("q")];
    assert Root(g, "a") == "p";
    assert Root(more, "a") == Walk(more, "p", Some("q"), {"a"} + {"p"}) == "q";
  }
}
