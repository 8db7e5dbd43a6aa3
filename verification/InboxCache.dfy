/** What the inbox does to posts that are already in the timeline cache. */
module InboxCache {
  import opened Wrappers
  import opened Activities
  import opened Inbox
  import opened Ordering
  import TimelineCache

  const WEEK_MS: int := 7 * 24 * 3600 * 1000

  predicate Fresh(c: TimelineCache.Cached, now: int) {
    now - c.insertedAt <= WEEK_MS
  }

  /** As for stored statuses: apart from new posts coming in, a fresh cached post is lost exactly to an
      accepted Delete for it whose actor owns it. */
  lemma FreshPostLostIffOwnerDeletes(env: Env, s: State, input: Input, id: string)
    requires id in s.cache && Fresh(s.cache[id], input.now) && KindOf(input.activity) != Some(Create)
    ensures var after := Process(env, s, input).0;
      && (id !in after.cache <==> DeletesAs(env, s, input, s.cache[id].uri, s.cache[id].account))
      && (id in after.cache ==> after.cache[id] == s.cache[id])
  {
    StepTouches(env, s, input);
  }

  /** A followee's post that takes the place of the cached post `id`, or comes in with as many posts as
      the cache holds ahead of that one. */
  ghost predicate Displaces(env: Env, s: State, input: Input, id: string, post: TimelineCache.Cached) {
    && KindOf(input.activity) == Some(Create)
    && (exists f :: f in s.follows && Owns(env, input.actor, f))
    && Get(input.activity, "object").Some?
    && (|| GetStr(Get(input.activity, "object").value, "id") == Some(id)
        || |AheadOf(TimelineCache.Stamps(Process(env, s, input).0.cache), Stamp(post.createdAt, id))| == env.maxCached)
  }

  ghost predicate Loses(env: Env, s: State, input: Input, id: string, post: TimelineCache.Cached) {
    || !Fresh(post, input.now)
    || DeletesAs(env, s, input, post.uri, post.account)
    || Displaces(env, s, input, id, post)
  }

  lemma CreateLoses(env: Env, s: State, input: Input, id: string)
    requires id in s.cache && Fresh(s.cache[id], input.now)
    requires var cache := AfterCreate(env, s, input, CacheOnly).cache; id !in cache || cache[id] != s.cache[id]
    ensures Get(input.activity, "object").Some?
    ensures || GetStr(Get(input.activity, "object").value, "id") == Some(id)
            || |AheadOf(TimelineCache.Stamps(AfterCreate(env, s, input, CacheOnly).cache), Stamp(s.cache[id].createdAt, id))| == env.maxCached
  {
    var obj := Get(input.activity, "object").value;
    var c := CachedFrom(env, obj, input.actor, input.now);
    if c.uri != id {
      TimelineCache.InsertDropsOnlyOldOrLast(s.cache, env.maxCached, c.uri, c, input.now, id);
    }
  }

  lemma StepLoses(env: Env, s: State, input: Input, id: string)
    requires id in s.cache
    requires id !in Process(env, s, input).0.cache || Process(env, s, input).0.cache[id] != s.cache[id]
    ensures Loses(env, s, input, id, s.cache[id])
  {
    if Fresh(s.cache[id], input.now) {
      if KindOf(input.activity) != Some(Create) {
        FreshPostLostIffOwnerDeletes(env, s, input, id);
      } else {
        StepTouches(env, s, input);
        CreateLoses(env, s, input, id);
      }
    }
  }

  /** Over every run a cached post is lost only by age, to its owner's Delete, or to a followee's newer
      post. */
  lemma {:induction false} CachedPostLostOnlyTo(env: Env, s: State, inputs: seq<Input>, id: string)
    requires id in s.cache
    requires id !in Run(env, s, inputs).cache || Run(env, s, inputs).cache[id] != s.cache[id]
    ensures exists i :: 0 <= i < |inputs| && Loses(env, Run(env, s, inputs[..i]), inputs[i], id, s.cache[id])
    decreases |inputs|
  {
    var after := Process(env, s, inputs[0]).0;
    if id in after.cache && after.cache[id] == s.cache[id] {
      CachedPostLostOnlyTo(env, after, inputs[1..], id);
      var i :| 0 <= i < |inputs[1..]| && Loses(env, Run(env, after, inputs[1..][..i]), inputs[1..][i], id, s.cache[id]);
      assert inputs[..i + 1][0] == inputs[0] && inputs[..i + 1][1..] == inputs[1..][..i];
      assert Run(env, s, inputs[..i + 1]) == Run(env, after, inputs[1..][..i]);
      assert Loses(env, Run(env, s, inputs[..i + 1]), inputs[i + 1], id, s.cache[id]);
    } else {
      StepLoses(env, s, inputs[0], id);
      assert Run(env, s, inputs[..0]) == s;
      assert Loses(env, Run(env, s, inputs[..0]), inputs[0], id, s.cache[id]);
    }
  }

  lemma QuietPostIsCacheOnly(env: Env, s: State, input: Input, obj: Json, follow: string)
    requires KindOf(input.activity) == Some(Create) && Get(input.activity, "object") == Some(obj)
    requires follow in s.follows && Owns(env, input.actor, follow)
    requires forall d :: d in env.domains(input.actor) ==> d !in s.blocked
    requires !Mentions(env.local, obj) && !RepliesToLocal(env.local, obj)
    ensures Process(env, s, input).0 == AfterCreate(env, s, input, CacheOnly)
  {
    assert IsFollowee(env, s.follows, input.actor);
    assert Process(env, s, input) == Dispatch(env, s, input, Create);
  }

  lemma CacheOnlyCaches(env: Env, s: State, input: Input, obj: Json, id: string)
    requires Get(input.activity, "object") == Some(obj) && GetStr(obj, "id") == Some(id) && IsPost(obj)
    ensures var after := AfterCreate(env, s, input, CacheOnly);
      && after.notifications == s.notifications
      && after.cache == TimelineCache.Insert(s.cache, env.maxCached, id, CachedFrom(env, obj, input.actor, input.now), input.now)
  {
  }

  /** A followee's post that neither mentions the local user nor replies to them is cached under its id:
      by its author's address, with its own date or else the time of arrival, its content cleaned. It
      notifies nobody. */
  lemma FolloweePostIsCached(env: Env, s: State, input: Input, obj: Json, id: string, follow: string)
    requires KindOf(input.activity) == Some(Create) && Get(input.activity, "object") == Some(obj)
    requires GetStr(obj, "id") == Some(id) && GetStr(obj, "type") in {Some("Note"), Some("Article")}
    requires follow in s.follows && Owns(env, input.actor, follow)
    requires forall d :: d in env.domains(input.actor) ==> d !in s.blocked
    requires !Mentions(env.local, obj) && !RepliesToLocal(env.local, obj)
    requires forall k :: k in s.cache && s.cache[k].uri == id ==> k == id
    ensures var after := Process(env, s, input).0;
      var date := if GetStr(obj, "published").None? then None else env.published(GetStr(obj, "published").value);
      var at := if date.Some? then date.value else input.now;
      && after.notifications == s.notifications
      && if id in after.cache
         then after.cache[id] == TimelineCache.Cached(
                id, env.addressOf(input.actor), at, env.clean(GetStr(obj, "content").UnwrapOr("")), input.now)
         else |AheadOf(TimelineCache.Stamps(after.cache), Stamp(at, id))| == env.maxCached
  {
    QuietPostIsCacheOnly(env, s, input, obj, follow);
    var c := CachedFrom(env, obj, input.actor, input.now);
    TimelineCache.InsertStores(s.cache, env.maxCached, id, c, input.now);
    CacheOnlyCaches(env, s, input, obj, id);
  }
}
