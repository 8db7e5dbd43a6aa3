/** The inbox processor: what one signed ActivityPub activity does to followers, statuses, the
    timeline cache and notifications. URL parsing, HTML cleaning and time parsing are parameters. */
module Inbox {
  import opened Wrappers
  import opened Activities
  import opened Text
  import Addresses
  import ProfileCache
  import TimelineCache

  // ---------------------------------------------------------------------------
  // State
  // ---------------------------------------------------------------------------

  datatype Follower = Follower(inbox: string, uri: string)
  datatype Status = Status(id: string, account: string, isLocal: bool)
  datatype Notification = Notification(kind: string, origin: string, status: Option<string>)

  /** The tables the processor reads and writes. `followers` is keyed by its UNIQUE address and
      `statuses` by their UNIQUE URI. */
  datatype State = State(
    follows: set<string>,
    followers: map<string, Follower>,
    statuses: map<string, Status>,
    cache: TimelineCache.Rows,
    notifications: seq<Notification>,
    blocked: set<string>,
    profiles: ProfileCache.Rows,
    lastPrune: int)

  /** What the processor is configured with, and the foreign code it calls. */
  datatype Env = Env(
    local: string,
    maxCached: nat,
    profileTtl: nat,
    addressOf: string -> string,
    scheme: string -> Option<string>,
    domains: string -> seq<string>,
    url: string -> Option<(string, Option<nat>)>,
    isLocalTarget: string -> bool,
    published: string -> Option<int>,
    clean: string -> string,
    actorObject: Json -> Option<ProfileCache.ActorObject>)

  datatype Input = Input(activity: Json, actor: string, now: int)

  // ---------------------------------------------------------------------------
  // Who is who
  // ---------------------------------------------------------------------------

  function DefaultPort(scheme: Option<string>): Option<nat> {
    if scheme == Some("http") then Some(80) else if scheme == Some("https") then Some(443) else None
  }

  /** The host part of what the URL parser finds in an authority, as the database uses it. */
  function HostOf(env: Env): Addresses.HostParser {
    (authority: string) => if env.url(authority).None? then None else Some(env.url(authority).value.0)
  }

  function TrimOpening(h: string): string {
    if h != "" && h[0] == '[' then TrimOpening(h[1..]) else h
  }

  function TrimClosing(h: string): string {
    if h != "" && h[|h| - 1] == ']' then TrimClosing(h[..|h| - 1]) else h
  }

  /** A host without its brackets. */
  function Bare(h: string): string {
    TrimClosing(TrimOpening(h))
  }

  /** `parse_account_address` of the processor: host and port as the URL parser gives them. */
  function Parse(env: Env, address: string): Option<Addresses.Address> {
    match Addresses.SplitOnce(address, '@')
    case None => None
    case Some(r) =>
      match env.url(r.1)
      case None => None
      case Some(u) => Some(Addresses.Address(Lower(r.0), Lower(Bare(u.0)), u.1))
  }

  /** `follow_addresses_match` */
  predicate SameActor(env: Env, actorAddress: string, address: string, scheme: Option<string>) {
    match (Parse(env, actorAddress), Parse(env, address))
    case (Some(a), Some(f)) =>
      && a.user == f.user && SameFold(a.host, f.host)
      && (if DefaultPort(scheme).Some?
          then a.port.UnwrapOr(DefaultPort(scheme).value) == f.port.UnwrapOr(DefaultPort(scheme).value)
          else a.port == f.port)
    case _ => SameFold(actorAddress, address)
  }

  /** The actor is the owner of something filed under `account`. */
  predicate Owns(env: Env, actor: string, account: string) {
    SameActor(env, env.addressOf(actor), account, env.scheme(actor))
  }

  /** The database's own matcher, as the follower deletes use it. */
  predicate IsFollower(env: Env, actor: string, row: string) {
    Addresses.Match(HostOf(env), row, env.addressOf(actor), DefaultPort(env.scheme(actor)))
  }

  predicate IsFollowee(env: Env, follows: set<string>, actor: string) {
    exists f :: f in follows && Owns(env, actor, f)
  }

  predicate IsBlocked(env: Env, blocked: set<string>, actor: string) {
    exists d :: d in env.domains(actor) && d in blocked
  }

  // ---------------------------------------------------------------------------
  // The decision
  // ---------------------------------------------------------------------------

  datatype Decision = Persist | CacheOnly | Ignore

  /** `decide_persistence` */
  function Decide(env: Env, activity: Json, fromFollowee: bool): Decision {
    match KindOf(activity)
    case None => Ignore
    case Some(kind) => DecideFor(env, kind, activity, fromFollowee)
  }

  function DecideFor(env: Env, kind: Kind, activity: Json, fromFollowee: bool): Decision {
    match kind
    case Follow => Persist
    case Like => Persist
    case Accept => Persist
    case Undo => Persist
    case Delete => CacheOnly
    case Announce =>
      (match Get(activity, "object")
       case None => Ignore
       case Some(obj) =>
         if obj.Obj? && Get(obj, "type").Some? then
           if Mentions(env.local, obj) then Persist else Ignore
         else if obj.Str? && IsLocalStatus(env.local, obj.text) then Persist
         else Ignore)
    case Create =>
      (match Get(activity, "object")
       case None => Ignore
       case Some(obj) =>
         if Mentions(env.local, obj) || RepliesToLocal(env.local, obj) then Persist
         else if fromFollowee then CacheOnly
         else Ignore)
    case _ => Ignore
  }

  // ---------------------------------------------------------------------------
  // The handlers
  // ---------------------------------------------------------------------------

  type Outcome = Result<(), AppError>

  function Notify(s: State, n: Notification): State {
    s.(notifications := s.notifications + [n])
  }

  predicate IsPost(obj: Json) {
    GetStr(obj, "type") == Some("Note") || GetStr(obj, "type") == Some("Article")
  }

  function CachedFrom(env: Env, obj: Json, actor: string, now: int): TimelineCache.Cached
    requires GetStr(obj, "id").Some?
  {
    var at := match GetStr(obj, "published") case None => None case Some(p) => env.published(p);
    TimelineCache.Cached(GetStr(obj, "id").value, env.addressOf(actor), at.UnwrapOr(now),
                         env.clean(GetStr(obj, "content").UnwrapOr("")), now)
  }

  function AfterCreate(env: Env, s: State, input: Input, decision: Decision): State {
    match Get(input.activity, "object")
    case None => s
    case Some(obj) =>
      if !IsPost(obj) then s
      else if decision == Persist && (Mentions(env.local, obj) || RepliesToLocal(env.local, obj)) then
        Notify(s, Notification("mention", env.addressOf(input.actor), GetStr(obj, "id")))
      else if decision == CacheOnly && GetStr(obj, "id").Some? then
        var c := CachedFrom(env, obj, input.actor, input.now);
        s.(cache := TimelineCache.Insert(s.cache, env.maxCached, c.uri, c, input.now))
      else s
  }

  function AfterUpdate(env: Env, s: State, input: Input): State {
    var o := env.actorObject(input.activity);
    var hits := ProfileCache.Rewritten(s.profiles, env.profileTtl, input.actor, o, input.now);
    s.(profiles := ProfileCache.After(s.profiles, env.profileTtl, s.lastPrune, ProfileCache.UpdateOp(input.actor, o, input.now)),
       lastPrune := if hits != map[] && ProfileCache.PruneDue(s.lastPrune, input.now) then input.now else s.lastPrune)
  }

  /** The cached status is looked at under `uri`; its row goes if the actor owns it. */
  function DropCached(env: Env, cache: TimelineCache.Rows, uri: string, actor: string, now: int): TimelineCache.Rows {
    var live := TimelineCache.PruneExpired(cache, now);
    map id | id in live && !(live[id].uri == uri && Owns(env, actor, live[id].account)) :: live[id]
  }

  predicate DropsStatus(env: Env, statuses: map<string, Status>, uri: string, actor: string) {
    uri in statuses && !statuses[uri].isLocal && Owns(env, actor, statuses[uri].account)
  }

  function WithoutId(statuses: map<string, Status>, id: string): map<string, Status> {
    map u | u in statuses && statuses[u].id != id :: statuses[u]
  }

  function AfterDelete(env: Env, s: State, input: Input): State {
    match DeleteTarget(input.activity)
    case None => s
    case Some(uri) =>
      s.(cache := DropCached(env, s.cache, uri, input.actor, input.now),
         statuses := if DropsStatus(env, s.statuses, uri, input.actor) then WithoutId(s.statuses, s.statuses[uri].id) else s.statuses)
  }

  /** The id of the Follow, or the actor where it has none. */
  function FollowUri(input: Input): string {
    GetStr(input.activity, "id").UnwrapOr(input.actor)
  }

  function InboxOf(input: Input): string {
    match Get(input.activity, "actor")
    case None => input.actor + "/inbox"
    case Some(a) =>
      if a.Str? then a.text + "/inbox" else GetStr(a, "inbox").UnwrapOr(input.actor + "/inbox")
  }

  function AfterFollow(env: Env, s: State, input: Input): (State, Outcome) {
    match FollowTarget(input.activity)
    case None => (s, Err(Validation))
    case Some(target) =>
      var address := env.addressOf(input.actor);
      if !env.isLocalTarget(target) then (s, Err(Validation))
      else if address in s.followers then (s, Err(Database))
      else
        (Notify(s.(followers := s.followers[address := Follower(InboxOf(input), FollowUri(input))]),
                Notification("follow", address, None)),
         Ok(()))
  }

  /** What an Undo removes: nothing, the actor's rows, or those of them with one Follow id. */
  datatype Removal = Nothing | ByAddress | ByUri(uri: string)

  function UndoRemoval(env: Env, activity: Json): Removal {
    match Get(activity, "object")
    case None => Nothing
    case Some(obj) =>
      match GetStr(obj, "type")
      case Some(kind) =>
        if kind != "Follow" then Nothing
        else
          (match FollowTarget(obj)
           case None => Nothing
           case Some(target) =>
             if !env.isLocalTarget(target) then Nothing
             else match GetStr(obj, "id") case Some(uri) => ByUri(uri) case None => ByAddress)
      case None => if obj.Str? then ByUri(obj.text) else Nothing
  }

  predicate Drops(env: Env, removal: Removal, actor: string, row: string, follower: Follower) {
    match removal
    case Nothing => false
    case ByAddress => IsFollower(env, actor, row)
    case ByUri(uri) => IsFollower(env, actor, row) && follower.uri == uri
  }

  function DropFollowers(env: Env, followers: map<string, Follower>, removal: Removal, actor: string): map<string, Follower> {
    map a | a in followers && !Drops(env, removal, actor, a, followers[a]) :: followers[a]
  }

  function AfterUndo(env: Env, s: State, input: Input): State {
    s.(followers := DropFollowers(env, s.followers, UndoRemoval(env, input.activity), input.actor))
  }

  function AfterLike(env: Env, s: State, input: Input): (State, Outcome) {
    match GetStr(input.activity, "object")
    case None => (s, Err(Validation))
    case Some(uri) =>
      if IsLocalStatus(env.local, uri)
      then (Notify(s, Notification("favourite", env.addressOf(input.actor), Some(uri))), Ok(()))
      else (s, Ok(()))
  }

  function AfterAnnounce(env: Env, s: State, input: Input): (State, Outcome) {
    match Get(input.activity, "object")
    case None => (s, Err(Validation))
    case Some(obj) =>
      if obj.Obj? && Mentions(env.local, obj) then
        (Notify(s, Notification("mention", env.addressOf(input.actor), GetStr(obj, "id"))), Ok(()))
      else if obj.Str? && IsLocalStatus(env.local, obj.text) then
        (Notify(s, Notification("reblog", env.addressOf(input.actor), Some(obj.text))), Ok(()))
      else (s, Ok(()))
  }

  /** The handler of each kind. */
  function Handled(env: Env, s: State, input: Input, kind: Kind, decision: Decision): (State, Outcome) {
    match kind
    case Create => (AfterCreate(env, s, input, decision), Ok(()))
    case Update => (AfterUpdate(env, s, input), Ok(()))
    case Delete => (AfterDelete(env, s, input), Ok(()))
    case Follow => AfterFollow(env, s, input)
    case Accept => (s, Ok(()))
    case Reject => (s, Ok(()))
    case Undo => (AfterUndo(env, s, input), Ok(()))
    case Like => AfterLike(env, s, input)
    case Announce => AfterAnnounce(env, s, input)
    case Block => (s, Ok(()))
  }

  /** An activity of a known kind from an actor that is not blocked. */
  function Dispatch(env: Env, s: State, input: Input, kind: Kind): (State, Outcome) {
    var decision := DecideFor(env, kind, input.activity, kind == Create && IsFollowee(env, s.follows, input.actor));
    if decision == Ignore then (s, Ok(())) else Handled(env, s, input, kind, decision)
  }

  /** `process` */
  function Process(env: Env, s: State, input: Input): (State, Outcome) {
    match KindOf(input.activity)
    case None => (s, Err(Validation))
    case Some(kind) =>
      if IsBlocked(env, s.blocked, input.actor) then (s, Err(Forbidden)) else Dispatch(env, s, input, kind)
  }

  function Run(env: Env, s: State, inputs: seq<Input>): State
    decreases |inputs|
  {
    if inputs == [] then s else Run(env, Process(env, s, inputs[0]).0, inputs[1..])
  }

  // ---------------------------------------------------------------------------
  // One activity
  // ---------------------------------------------------------------------------

  /** An activity that is refused changes nothing; a blocked domain's is always refused. */
  lemma RefusalsChangeNothing(env: Env, s: State, input: Input)
    ensures Process(env, s, input).1.Err? ==> Process(env, s, input).0 == s
    ensures (exists d :: d in env.domains(input.actor) && d in s.blocked) ==> Process(env, s, input).1.Err?
    ensures Process(env, s, input).1 == Err(Forbidden) <==>
      KindOf(input.activity).Some? && exists d :: d in env.domains(input.actor) && d in s.blocked
  {
  }

  /** What an accepted activity of a known kind says to the local user, from the activity alone. */
  predicate Concerns(env: Env, kind: Kind, activity: Json) {
    match kind
    case Follow => FollowTarget(activity).Some? && env.isLocalTarget(FollowTarget(activity).value)
    case Like => GetStr(activity, "object").Some? && IsLocalStatus(env.local, GetStr(activity, "object").value)
    case Announce =>
      (match Get(activity, "object")
       case None => false
       case Some(obj) =>
         if obj.Str? then IsLocalStatus(env.local, obj.text)
         else Get(obj, "type").Some? && Mentions(env.local, obj))
    case Create =>
      (match Get(activity, "object")
       case None => false
       case Some(obj) =>
         GetStr(obj, "type") in {Some("Note"), Some("Article")} && (Mentions(env.local, obj) || RepliesToLocal(env.local, obj)))
    case _ => false
  }

  function NoticeKind(kind: Kind, activity: Json): string {
    match kind
    case Follow => "follow"
    case Like => "favourite"
    case Announce => if GetStr(activity, "object").Some? then "reblog" else "mention"
    case _ => "mention"
  }

  function NoticeStatus(kind: Kind, activity: Json): Option<string> {
    match Get(activity, "object")
    case None => None
    case Some(obj) => if kind == Follow then None else if obj.Str? then Some(obj.text) else GetStr(obj, "id")
  }

  /** The notifications an accepted activity gives rise to: one, if it concerns the local user and is
      not a second follow. */
  function Notices(env: Env, s: State, input: Input, kind: Kind): seq<Notification> {
    if !Concerns(env, kind, input.activity) || (kind == Follow && env.addressOf(input.actor) in s.followers) then []
    else [Notification(NoticeKind(kind, input.activity), env.addressOf(input.actor), NoticeStatus(kind, input.activity))]
  }

  lemma CreateNotifies(env: Env, s: State, input: Input, fromFollowee: bool)
    ensures var decision := DecideFor(env, Create, input.activity, fromFollowee);
      decision != Ignore ==>
        AfterCreate(env, s, input, decision).notifications == s.notifications + Notices(env, s, input, Create)
    ensures DecideFor(env, Create, input.activity, fromFollowee) == Ignore ==> Notices(env, s, input, Create) == []
  {
  }

  lemma AnnounceNotifies(env: Env, s: State, input: Input)
    ensures DecideFor(env, Announce, input.activity, false) != Ignore ==>
      AfterAnnounce(env, s, input).0.notifications == s.notifications + Notices(env, s, input, Announce)
    ensures DecideFor(env, Announce, input.activity, false) == Ignore ==> Notices(env, s, input, Announce) == []
  {
  }

  lemma DispatchNotifies(env: Env, s: State, input: Input, kind: Kind)
    ensures Dispatch(env, s, input, kind).0.notifications == s.notifications + Notices(env, s, input, kind)
  {
    match kind
    case Create => CreateNotifies(env, s, input, IsFollowee(env, s.follows, input.actor));
    case Announce => AnnounceNotifies(env, s, input);
    case _ =>
  }

  /** An accepted activity appends exactly the notification it gives rise to, with the actor as its
      origin: a post that both mentions the user and replies to them notifies once, a boost is decided
      and handled alike, a repeated follow does not notify, and none is ever taken back. */
  lemma NotifiesExactly(env: Env, s: State, input: Input)
    ensures var t := Process(env, s, input).0;
      t.notifications == s.notifications +
        if KindOf(input.activity).Some? && !IsBlocked(env, s.blocked, input.actor)
        then Notices(env, s, input, KindOf(input.activity).value) else []
  {
    if KindOf(input.activity).Some? {
      DispatchNotifies(env, s, input, KindOf(input.activity).value);
    }
  }

  // ---------------------------------------------------------------------------
  // Update activities
  // ---------------------------------------------------------------------------

  lemma DispatchKeepsProfiles(env: Env, s: State, input: Input, kind: Kind)
    ensures Dispatch(env, s, input, kind).0.profiles == s.profiles
  {
    if kind == Create {
      CreateKeepsProfiles(env, s, input, DecideFor(env, kind, input.activity, IsFollowee(env, s.follows, input.actor)));
    } else if kind == Announce {
      AnnounceKeepsProfiles(env, s, input);
    }
  }

  lemma CreateKeepsProfiles(env: Env, s: State, input: Input, decision: Decision)
    ensures AfterCreate(env, s, input, decision).profiles == s.profiles
  {
  }

  lemma AnnounceKeepsProfiles(env: Env, s: State, input: Input)
    ensures AfterAnnounce(env, s, input).0.profiles == s.profiles
  {
  }

  /** No run of the inbox ever changes the profile cache, Update activities included. */
  lemma {:induction false} ProfilesNeverChange(env: Env, s: State, inputs: seq<Input>)
    ensures Run(env, s, inputs).profiles == s.profiles
    decreases |inputs|
  {
    if inputs != [] {
      var input := inputs[0];
      if KindOf(input.activity).Some? {
        DispatchKeepsProfiles(env, s, input, KindOf(input.activity).value);
      }
      ProfilesNeverChange(env, Process(env, s, input).0, inputs[1..]);
    }
  }

  /** What is lost by that: the handler would have brought the actor's cached profile up to date. */
  lemma UpdateHandlerRefreshes(env: Env, s: State, input: Input, address: string, o: ProfileCache.ActorObject)
    requires address in ProfileCache.ByUri(s.profiles, env.profileTtl, input.actor, input.now)
    requires env.actorObject(input.activity) == Some(o) && (o.id.Some? ==> o.id.value == input.actor)
    ensures var refreshed := AfterUpdate(env, s, input).profiles;
      address in refreshed &&
      refreshed[address] == ProfileCache.Profile(input.actor, ProfileCache.Patch(s.profiles[address].fields, o), input.now)
  {
    var updated := ProfileCache.Rewritten(s.profiles, env.profileTtl, input.actor, Some(o), input.now);
    assert address in updated && updated[address].fetchedAt == input.now && updated[address].uri == input.actor;
    assert (s.profiles + updated)[address] == updated[address];
  }

  // ---------------------------------------------------------------------------
  // Runs: nothing goes but by its owner
  // ---------------------------------------------------------------------------

  /** The ids are a primary key. */
  predicate IdsAreKeys(statuses: map<string, Status>) {
    forall u, v :: u in statuses && v in statuses && statuses[u].id == statuses[v].id ==> u == v
  }

  /** An activity of that kind from an actor that is not blocked. */
  predicate Accepted(env: Env, s: State, input: Input, kind: Kind) {
    KindOf(input.activity) == Some(kind) && !IsBlocked(env, s.blocked, input.actor)
  }

  /** What each kind of activity may touch, `t` being the state after it. */
  ghost predicate Touches(env: Env, s: State, input: Input, kind: Kind, t: State) {
    && t.follows == s.follows && t.blocked == s.blocked
    && t.statuses == (if kind == Delete then AfterDelete(env, s, input).statuses else s.statuses)
    && t.followers == (if kind == Undo then AfterUndo(env, s, input).followers
                       else if kind == Follow then AfterFollow(env, s, input).0.followers
                       else s.followers)
    && (kind == Delete ==> t.cache == AfterDelete(env, s, input).cache)
    && (kind == Create ==>
          || t.cache == s.cache
          || (IsFollowee(env, s.follows, input.actor) && t.cache == AfterCreate(env, s, input, CacheOnly).cache))
    && (kind != Create && kind != Delete ==> t.cache == s.cache)
  }

  lemma DispatchTouches(env: Env, s: State, input: Input, kind: Kind)
    ensures Touches(env, s, input, kind, Dispatch(env, s, input, kind).0)
  {
    match kind
    case Create =>
      CreateTouches(env, s, input, DecideFor(env, kind, input.activity, IsFollowee(env, s.follows, input.actor)));
    case Follow => FollowTouches(env, s, input);
    case Like => LikeTouches(env, s, input);
    case Announce => AnnounceTouches(env, s, input);
    case _ =>
  }

  lemma CreateTouches(env: Env, s: State, input: Input, decision: Decision)
    requires decision == CacheOnly ==> IsFollowee(env, s.follows, input.actor)
    ensures Touches(env, s, input, Create, AfterCreate(env, s, input, decision))
  {
  }

  lemma FollowTouches(env: Env, s: State, input: Input)
    ensures Touches(env, s, input, Follow, AfterFollow(env, s, input).0)
  {
  }

  lemma LikeTouches(env: Env, s: State, input: Input)
    ensures Touches(env, s, input, Like, AfterLike(env, s, input).0)
  {
  }

  lemma AnnounceTouches(env: Env, s: State, input: Input)
    ensures Touches(env, s, input, Announce, AfterAnnounce(env, s, input).0)
  {
    NotifyTouches(env, s, input, Announce, s.notifications);
    NotifyTouches(env, s, input, Announce, AfterAnnounce(env, s, input).0.notifications);
  }

  lemma NotifyTouches(env: Env, s: State, input: Input, kind: Kind, notifications: seq<Notification>)
    requires kind in {Like, Announce}
    ensures Touches(env, s, input, kind, s.(notifications := notifications))
  {
  }

  lemma StepTouches(env: Env, s: State, input: Input)
    ensures Process(env, s, input).0 == s ||
      exists kind :: Accepted(env, s, input, kind) && Process(env, s, input) == Dispatch(env, s, input, kind)
                     && Touches(env, s, input, kind, Process(env, s, input).0)
    ensures Process(env, s, input).0.blocked == s.blocked && Process(env, s, input).0.follows == s.follows
    ensures forall kind :: Accepted(env, s, input, kind) ==>
              Process(env, s, input) == Dispatch(env, s, input, kind) && Touches(env, s, input, kind, Process(env, s, input).0)
  {
    if KindOf(input.activity).Some? && !IsBlocked(env, s.blocked, input.actor) {
      var kind := KindOf(input.activity).value;
      DispatchTouches(env, s, input, kind);
      assert Accepted(env, s, input, kind);
    }
  }

  /** An accepted Delete of `uri` whose actor owns `account`. */
  predicate DeletesAs(env: Env, s: State, input: Input, uri: string, account: string) {
    && Accepted(env, s, input, Delete)
    && DeleteTarget(input.activity) == Some(uri) && Owns(env, input.actor, account)
  }

  lemma StepKeepsStatuses(env: Env, s: State, input: Input, uri: string)
    requires IdsAreKeys(s.statuses) && uri in s.statuses
    ensures var after := Process(env, s, input).0;
      && (uri in after.statuses <==> s.statuses[uri].isLocal || !DeletesAs(env, s, input, uri, s.statuses[uri].account))
      && (uri in after.statuses ==> after.statuses[uri] == s.statuses[uri])
  {
    StepTouches(env, s, input);
  }

  lemma StepKeepsKeys(env: Env, s: State, input: Input)
    requires IdsAreKeys(s.statuses)
    ensures var after := Process(env, s, input).0;
      && IdsAreKeys(after.statuses) && after.statuses.Keys <= s.statuses.Keys
      && after.blocked == s.blocked && after.follows == s.follows
  {
    StepTouches(env, s, input);
    DeleteKeepsKeys(env, s, input);
  }

  lemma DeleteKeepsKeys(env: Env, s: State, input: Input)
    requires IdsAreKeys(s.statuses)
    ensures var after := AfterDelete(env, s, input);
      IdsAreKeys(after.statuses) && after.statuses.Keys <= s.statuses.Keys
  {
  }

  /** Over every run a stored status is lost exactly when it is remote and its owner sent a Delete
      for it. So local statuses always stay. */
  lemma {:induction false} StatusLostIffOwnerDeletes(env: Env, s: State, inputs: seq<Input>, uri: string)
    requires IdsAreKeys(s.statuses) && uri in s.statuses
    ensures uri !in Run(env, s, inputs).statuses <==>
      && !s.statuses[uri].isLocal
      && exists i :: 0 <= i < |inputs| && DeletesAs(env, s, inputs[i], uri, s.statuses[uri].account)
    ensures uri in Run(env, s, inputs).statuses ==> Run(env, s, inputs).statuses[uri] == s.statuses[uri]
    decreases |inputs|
  {
    if inputs != [] {
      var after := Process(env, s, inputs[0]).0;
      StepKeepsStatuses(env, s, inputs[0], uri);
      StepKeepsKeys(env, s, inputs[0]);
      if uri in after.statuses {
        StatusLostIffOwnerDeletes(env, after, inputs[1..], uri);
        var account := s.statuses[uri].account;
        forall i | 0 <= i < |inputs[1..]|
          ensures DeletesAs(env, after, inputs[1..][i], uri, account) == DeletesAs(env, s, inputs[i + 1], uri, account)
        {
        }
        SomewhereElse(inputs, x => DeletesAs(env, s, x, uri, account), x => DeletesAs(env, after, x, uri, account));
      } else {
        StatusStaysLost(env, after, inputs[1..], uri);
      }
    }
  }

  /** A property that the first input lacks holds of some input exactly when it holds of a later one. */
  lemma SomewhereElse(inputs: seq<Input>, p: Input -> bool, q: Input -> bool)
    requires inputs != [] && forall i :: 0 <= i < |inputs[1..]| ==> q(inputs[1..][i]) == p(inputs[i + 1])
    ensures (exists i :: 0 <= i < |inputs| && p(inputs[i])) <==> p(inputs[0]) || (exists i :: 0 <= i < |inputs[1..]| && q(inputs[1..][i]))
  {
    if exists i :: 0 <= i < |inputs| && p(inputs[i]) {
      var i :| 0 <= i < |inputs| && p(inputs[i]);
      assert i > 0 ==> q(inputs[1..][i - 1]);
    }
    if exists i :: 0 <= i < |inputs[1..]| && q(inputs[1..][i]) {
      var i :| 0 <= i < |inputs[1..]| && q(inputs[1..][i]);
      assert p(inputs[i + 1]);
    }
  }

  lemma {:induction false} StatusStaysLost(env: Env, s: State, inputs: seq<Input>, uri: string)
    requires IdsAreKeys(s.statuses) && uri !in s.statuses
    ensures uri !in Run(env, s, inputs).statuses
    decreases |inputs|
  {
    if inputs != [] {
      StepKeepsKeys(env, s, inputs[0]);
      StatusStaysLost(env, Process(env, s, inputs[0]).0, inputs[1..], uri);
    }
  }

  /** An accepted Undo that names a follower row of its own actor. */
  predicate Unfollows(env: Env, s: State, input: Input, row: string, follower: Follower) {
    && Accepted(env, s, input, Undo)
    && Drops(env, UndoRemoval(env, input.activity), input.actor, row, follower)
  }

  lemma StepKeepsFollower(env: Env, s: State, input: Input, row: string)
    requires row in s.followers
    ensures var after := Process(env, s, input).0;
      && (row in after.followers <==> !Unfollows(env, s, input, row, s.followers[row]))
      && (row in after.followers ==> after.followers[row] == s.followers[row])
      && after.blocked == s.blocked
  {
    StepTouches(env, s, input);
  }

  /** Over every run a follower row stays as it is until its own actor undoes that follow. */
  lemma {:induction false} FollowerLostOnlyToItsActor(env: Env, s: State, inputs: seq<Input>, row: string)
    requires row in s.followers
    requires row !in Run(env, s, inputs).followers || Run(env, s, inputs).followers[row] != s.followers[row]
    ensures exists i :: 0 <= i < |inputs| && Unfollows(env, s, inputs[i], row, s.followers[row])
    decreases |inputs|
  {
    var after := Process(env, s, inputs[0]).0;
    StepKeepsFollower(env, s, inputs[0], row);
    if row in after.followers {
      FollowerLostOnlyToItsActor(env, after, inputs[1..], row);
      var i :| 0 <= i < |inputs[1..]| && Unfollows(env, after, inputs[1..][i], row, s.followers[row]);
      assert Unfollows(env, s, inputs[i + 1], row, s.followers[row]);
    }
  }

  /** `later` continues `earlier` without a follow notification from that address. */
  predicate NoFollowNotice(earlier: seq<Notification>, later: seq<Notification>, row: string) {
    && earlier <= later
    && forall i :: |earlier| <= i < |later| ==> later[i].kind != "follow" || later[i].origin != row
  }

  lemma FollowNoticeIsNew(env: Env, s: State, input: Input, kind: Kind, row: string)
    requires row in s.followers
    ensures forall n :: n in Notices(env, s, input, kind) ==> n.kind != "follow" || n.origin != row
  {
  }

  lemma StepAddsNoFollowNotice(env: Env, s: State, input: Input, row: string)
    requires row in s.followers
    ensures NoFollowNotice(s.notifications, Process(env, s, input).0.notifications, row)
  {
    NotifiesExactly(env, s, input);
    if KindOf(input.activity).Some? {
      FollowNoticeIsNew(env, s, input, KindOf(input.activity).value, row);
    }
  }

  /** Over every run a follower does not notify as a new one again until an Undo has removed the row. */
  lemma {:induction false} FollowNoticeNeedsUndo(env: Env, s: State, inputs: seq<Input>, row: string)
    requires row in s.followers
    requires forall i :: 0 <= i < |inputs| ==> !Unfollows(env, s, inputs[i], row, s.followers[row])
    ensures NoFollowNotice(s.notifications, Run(env, s, inputs).notifications, row)
    decreases |inputs|
  {
    if inputs != [] {
      var after := Process(env, s, inputs[0]).0;
      assert !Unfollows(env, s, inputs[0], row, s.followers[row]);
      StepKeepsFollower(env, s, inputs[0], row);
      StepAddsNoFollowNotice(env, s, inputs[0], row);
      forall i | 0 <= i < |inputs[1..]| ensures !Unfollows(env, after, inputs[1..][i], row, s.followers[row]) {
        assert !Unfollows(env, s, inputs[i + 1], row, s.followers[row]);
      }
      FollowNoticeNeedsUndo(env, after, inputs[1..], row);
    }
  }

  /** A Follow of the local user by the actor with that address. */
  predicate FollowsAs(env: Env, s: State, input: Input, row: string, follower: Follower) {
    && Accepted(env, s, input, Follow)
    && FollowTarget(input.activity).Some? && env.isLocalTarget(FollowTarget(input.activity).value)
    && env.addressOf(input.actor) == row && follower == Follower(InboxOf(input), FollowUri(input))
  }

  lemma StepAddsFollower(env: Env, s: State, input: Input, row: string)
    requires row in Process(env, s, input).0.followers
    ensures var added := Process(env, s, input).0.followers[row];
      FollowsAs(env, s, input, row, added) || (row in s.followers && s.followers[row] == added)
    ensures Process(env, s, input).0.blocked == s.blocked
  {
    StepTouches(env, s, input);
  }

  /** Over every run a follower row was there before or comes from its own actor's Follow. */
  lemma {:induction false} FollowerGainedOnlyFromItsActor(env: Env, s: State, inputs: seq<Input>, row: string)
    requires row in Run(env, s, inputs).followers
    requires row !in s.followers || Run(env, s, inputs).followers[row] != s.followers[row]
    ensures exists i :: 0 <= i < |inputs| && FollowsAs(env, s, inputs[i], row, Run(env, s, inputs).followers[row])
    decreases |inputs|
  {
    var after := Process(env, s, inputs[0]).0;
    var last := Run(env, s, inputs).followers[row];
    if row in after.followers && after.followers[row] == last {
      StepAddsFollower(env, s, inputs[0], row);
      assert FollowsAs(env, s, inputs[0], row, last);
    } else {
      FollowerGainedOnlyFromItsActor(env, after, inputs[1..], row);
      var i :| 0 <= i < |inputs[1..]| && FollowsAs(env, after, inputs[1..][i], row, last);
      StepTouches(env, s, inputs[0]);
      assert FollowsAs(env, s, inputs[i + 1], row, last);
    }
  }

  /** An accepted note or article of an account that the local user follows. */
  predicate PostsAs(env: Env, s: State, input: Input, c: TimelineCache.Cached) {
    && Accepted(env, s, input, Create)
    && (exists f :: f in s.follows && Owns(env, input.actor, f))
    && Get(input.activity, "object").Some? && GetStr(Get(input.activity, "object").value, "id").Some?
    && GetStr(Get(input.activity, "object").value, "type") in {Some("Note"), Some("Article")}
    && c == CachedFrom(env, Get(input.activity, "object").value, input.actor, input.now)
  }

  lemma StepCaches(env: Env, s: State, input: Input, id: string)
    requires id in Process(env, s, input).0.cache
    ensures var c := Process(env, s, input).0.cache[id];
      (PostsAs(env, s, input, c) && c.uri == id) || (id in s.cache && s.cache[id] == c)
  {
    StepTouches(env, s, input);
    if Process(env, s, input).0.cache != s.cache && id in AfterCreate(env, s, input, CacheOnly).cache {
      CreateCaches(env, s, input, id);
    }
  }

  lemma CreateCaches(env: Env, s: State, input: Input, id: string)
    requires id in AfterCreate(env, s, input, CacheOnly).cache
    ensures var c := AfterCreate(env, s, input, CacheOnly).cache[id];
      || (id in s.cache && s.cache[id] == c)
      || (&& Get(input.activity, "object").Some? && GetStr(Get(input.activity, "object").value, "id") == Some(id)
          && GetStr(Get(input.activity, "object").value, "type") in {Some("Note"), Some("Article")}
          && c == CachedFrom(env, Get(input.activity, "object").value, input.actor, input.now))
  {
  }

  /** Over every run a cached status was there before or is a post of a followee, filed under the
      address of the actor who sent it. */
  lemma {:induction false} CachedComeFromFollowees(env: Env, s: State, inputs: seq<Input>, id: string)
    requires id in Run(env, s, inputs).cache
    requires id !in s.cache || Run(env, s, inputs).cache[id] != s.cache[id]
    ensures exists i :: 0 <= i < |inputs| && PostsAs(env, s, inputs[i], Run(env, s, inputs).cache[id])
    decreases |inputs|
  {
    var after := Process(env, s, inputs[0]).0;
    var last := Run(env, s, inputs).cache[id];
    StepTouches(env, s, inputs[0]);
    if id in after.cache && after.cache[id] == last {
      StepCaches(env, s, inputs[0], id);
      assert PostsAs(env, s, inputs[0], last);
    } else {
      CachedComeFromFollowees(env, after, inputs[1..], id);
      var i :| 0 <= i < |inputs[1..]| && PostsAs(env, after, inputs[1..][i], last);
      assert PostsAs(env, s, inputs[i + 1], last);
    }
  }

  // ---------------------------------------------------------------------------
  // What a Follow and an Undo do
  // ---------------------------------------------------------------------------

  /** An accepted Follow of the local user records the actor's address, with the inbox the activity
      gives for its actor and the activity's id, or the actor's URI in their place; a second one is an
      error, and so is one of somebody else. */
  lemma FollowRecords(env: Env, s: State, input: Input)
    requires Accepted(env, s, input, Follow)
    ensures var (t, r) := Process(env, s, input);
      var target := FollowTarget(input.activity);
      var address := env.addressOf(input.actor);
      if target.None? || !env.isLocalTarget(target.value) then t == s && r == Err(Validation)
      else if address in s.followers then t == s && r == Err(Database)
      else
        && r == Ok(())
        && address in t.followers && t.followers.Keys == s.followers.Keys + {address}
        && (forall a :: a in s.followers ==> t.followers[a] == s.followers[a])
        && (GetStr(input.activity, "actor").Some? ==>
              t.followers[address].inbox == GetStr(input.activity, "actor").value + "/inbox")
        && (Get(input.activity, "actor").Some? && GetStr(Get(input.activity, "actor").value, "inbox").Some? ==>
              t.followers[address].inbox == GetStr(Get(input.activity, "actor").value, "inbox").value)
        && (Get(input.activity, "actor").None? ==> t.followers[address].inbox == input.actor + "/inbox")
        && (GetStr(input.activity, "id").Some? ==> t.followers[address].uri == GetStr(input.activity, "id").value)
        && (GetStr(input.activity, "id").None? ==> t.followers[address].uri == input.actor)
  {
  }

  /** An accepted Undo removes a follower row exactly when the row's address stands for the actor's
      account, and the undo names no follow id or the row's own. */
  lemma UndoRemovesExactly(env: Env, s: State, input: Input, row: string)
    requires Accepted(env, s, input, Undo) && row in s.followers
    ensures row !in Process(env, s, input).0.followers <==>
      && Addresses.Match(HostOf(env), row, env.addressOf(input.actor), DefaultPort(env.scheme(input.actor)))
      && UndoRemoval(env, input.activity) in {ByAddress, ByUri(s.followers[row].uri)}
  {
    StepTouches(env, s, input);
  }

  /** The forms of an Undo, and what each names. */
  lemma UndoForms(env: Env, uri: string, target: string, other: string)
    ensures UndoRemoval(env, Obj(map["object" := Str(uri)])) == ByUri(uri)
    ensures UndoRemoval(env, Obj(map["object" := Obj(map["type" := Str("Follow"), "id" := Str(uri), "object" := Str(target)])]))
         == if env.isLocalTarget(target) then ByUri(uri) else Nothing
    ensures UndoRemoval(env, Obj(map["object" := Obj(map["type" := Str("Follow"), "object" := Str(target)])]))
         == if env.isLocalTarget(target) then ByAddress else Nothing
    ensures UndoRemoval(env, Obj(map["object" := Obj(map["type" := Str("Follow"), "id" := Str(uri)])])) == Nothing
    ensures other != "Follow" ==>
      UndoRemoval(env, Obj(map["object" := Obj(map["type" := Str(other), "id" := Str(uri), "object" := Str(target)])])) == Nothing
    ensures UndoRemoval(env, Obj(map[])) == Nothing
  {
  }

  // ---------------------------------------------------------------------------
  // Undoing a follow
  // ---------------------------------------------------------------------------

  /** A row the actor already had, under another spelling of the address, that the Undo also names. */
  predicate OlderRow(env: Env, s: State, removal: Removal, actor: string) {
    exists a :: a in s.followers && Drops(env, removal, actor, a, s.followers[a])
  }

  /** A Follow that inserted its row, then the same actor's Undo of it, whether by id or by address:
      the follower table is restored exactly when the Undo named no older row of the actor. */
  lemma UndoRestoresIff(env: Env, s: State, follow: Input, undo: Input)
    requires KindOf(follow.activity) == Some(Follow) && Process(env, s, follow).1 == Ok(())
    requires KindOf(undo.activity) == Some(Undo) && undo.actor == follow.actor
    requires UndoRemoval(env, undo.activity) in {ByUri(FollowUri(follow)), ByAddress}
    ensures Run(env, s, [follow, undo]).followers == s.followers
       <==> !OlderRow(env, s, UndoRemoval(env, undo.activity), follow.actor)
  {
    var followed := Process(env, s, follow).0;
    RunOfTwo(env, s, follow, undo);
    var removal := UndoRemoval(env, undo.activity);
    var mine := env.addressOf(follow.actor);
    var row := Follower(InboxOf(follow), FollowUri(follow));
    StepTouches(env, s, follow);
    StepTouches(env, followed, undo);
    assert mine !in s.followers && followed.followers == s.followers[mine := row] by { FollowInserts(env, s, follow); }
    assert Process(env, followed, undo).0.followers == DropFollowers(env, followed.followers, removal, follow.actor);
    assert IsFollower(env, follow.actor, mine);
    DropRestoresIff(env, s.followers, removal, follow.actor, mine, row);
  }

  lemma FollowInserts(env: Env, s: State, follow: Input)
    requires KindOf(follow.activity) == Some(Follow) && Process(env, s, follow).1 == Ok(())
    ensures Accepted(env, s, follow, Follow) && env.addressOf(follow.actor) !in s.followers
    ensures Process(env, s, follow).0.followers
         == s.followers[env.addressOf(follow.actor) := Follower(InboxOf(follow), FollowUri(follow))]
  {
    StepTouches(env, s, follow);
  }

  lemma DropRestoresIff(env: Env, followers: map<string, Follower>, removal: Removal, actor: string, mine: string, row: Follower)
    requires mine !in followers && Drops(env, removal, actor, mine, row)
    ensures DropFollowers(env, followers[mine := row], removal, actor) == followers
       <==> !exists a :: a in followers && Drops(env, removal, actor, a, followers[a])
  {
    var kept := DropFollowers(env, followers[mine := row], removal, actor);
    forall a | a in followers && Drops(env, removal, actor, a, followers[a]) ensures kept != followers {
      assert a !in kept;
    }
    if !exists a :: a in followers && Drops(env, removal, actor, a, followers[a]) {
      assert kept == followers;
    }
  }

  lemma RunOfTwo(env: Env, s: State, a: Input, b: Input)
    ensures Run(env, s, [a, b]) == Process(env, Process(env, s, a).0, b).0
  {
    assert [a, b][1..] == [b] && [b][1..] == [];
    assert Run(env, Process(env, s, a).0, [b]) == Process(env, Process(env, s, a).0, b).0;
  }

  /** Such an older row can exist: a follower recorded with the port, followed again without it
      under the same activity id, is gone after the Undo. */
  lemma UndoTakesOlderRow(env: Env, s: State, follow: Input, undo: Input, spelled: string)
    requires KindOf(follow.activity) == Some(Follow) && Process(env, s, follow).1 == Ok(())
    requires KindOf(undo.activity) == Some(Undo) && undo.actor == follow.actor
    requires UndoRemoval(env, undo.activity) == ByUri(FollowUri(follow))
    requires spelled in s.followers && s.followers[spelled].uri == FollowUri(follow) && IsFollower(env, follow.actor, spelled)
    ensures spelled !in Run(env, s, [follow, undo]).followers
  {
    RunOfTwo(env, s, follow, undo);
    var followed := Process(env, s, follow).0;
    StepTouches(env, s, follow);
    StepTouches(env, followed, undo);
    assert followed.followers[spelled] == s.followers[spelled];
    assert Drops(env, UndoRemoval(env, undo.activity), follow.actor, spelled, s.followers[spelled]);
  }

  // ---------------------------------------------------------------------------
  // The owner of a post
  // ---------------------------------------------------------------------------

  /** The URL parser does not look at letter case. */
  ghost predicate UrlCaseBlind(env: Env) {
    forall a :: env.url(Lower(a)) == env.url(a)
  }

  /** What an address stands for under a scheme: user, bare host and port, 80 or 443 where it names
      none; or the folded text of something that is no address. */
  function ActorAccount(env: Env, address: string, scheme: Option<string>): Addresses.Account {
    match Parse(env, address)
    case None => Addresses.Other(Lower(address))
    case Some(a) =>
      Addresses.Account.Account(a.user, a.host,
        if scheme == Some("http") then Some(a.port.UnwrapOr(80))
        else if scheme == Some("https") then Some(a.port.UnwrapOr(443))
        else a.port)
  }

  lemma ParseFolds(env: Env, address: string)
    requires UrlCaseBlind(env)
    ensures Parse(env, Lower(address)) == Parse(env, address)
  {
    Addresses.SplitOnceFolds(address, '@');
    if Addresses.SplitOnce(address, '@').Some? {
      LowerTwice(Addresses.SplitOnce(address, '@').value.0);
    }
  }

  lemma ParsedHostFolded(env: Env, address: string)
    requires Parse(env, address).Some?
    ensures Lower(Parse(env, address).value.host) == Parse(env, address).value.host
  {
    var r := Addresses.SplitOnce(address, '@').value;
    LowerTwice(Bare(env.url(r.1).value.0));
  }

  /** Two addresses are one actor exactly when they stand for the same account; so ownership is an
      equivalence of addresses. */
  lemma SameActorIff(env: Env, left: string, right: string, scheme: Option<string>)
    requires UrlCaseBlind(env)
    ensures SameActor(env, left, right, scheme) <==> ActorAccount(env, left, scheme) == ActorAccount(env, right, scheme)
  {
    SameFoldSameParse(env, left, right);
    if Parse(env, left).Some? && Parse(env, right).Some? {
      ParsedHostFolded(env, left);
      ParsedHostFolded(env, right);
    }
  }

  /** What is filed under `account` belongs to the actors that stand for that account under their own
      scheme, and to no others. */
  lemma OwnsIff(env: Env, actor: string, account: string)
    requires UrlCaseBlind(env)
    ensures Owns(env, actor, account) <==>
      ActorAccount(env, env.addressOf(actor), env.scheme(actor)) == ActorAccount(env, account, env.scheme(actor))
  {
    SameActorIff(env, env.addressOf(actor), account, env.scheme(actor));
  }

  lemma SameFoldSameParse(env: Env, left: string, right: string)
    requires UrlCaseBlind(env)
    ensures SameFold(left, right) ==> Parse(env, left) == Parse(env, right)
  {
    ParseFolds(env, left);
    ParseFolds(env, right);
  }

  // ---------------------------------------------------------------------------
  // The two address matchers
  // ---------------------------------------------------------------------------

  function Shown(port: Option<nat>): Option<nat> {
    if port == Some(80) then None else port
  }

  /** The URL parser reads the port that the text of the authority names, and hides port 80 because it
      reads the authority as `http`. */
  predicate PortIsRead(env: Env, address: string) {
    match Addresses.SplitOnce(address, '@')
    case None => true
    case Some(r) => env.url(r.1).Some? ==> env.url(r.1).value.1 == Shown(Addresses.ExplicitPort(r.1))
  }

  lemma {:induction false} TrimOpeningFolds(h: string)
    ensures TrimOpening(Lower(h)) == Lower(TrimOpening(h))
  {
    if h != "" {
      Addresses.LowerHead(h);
      if h[0] == '[' { TrimOpeningFolds(h[1..]); }
    }
  }

  lemma {:induction false} TrimClosingFolds(h: string)
    ensures TrimClosing(Lower(h)) == Lower(TrimClosing(h))
  {
    if h != "" {
      Addresses.LowerLast(h);
      if h[|h| - 1] == ']' { TrimClosingFolds(h[..|h| - 1]); }
    }
  }

  /** The two modules read an address alike, up to brackets and port 80. */
  lemma ReadAlike(env: Env, address: string)
    requires PortIsRead(env, address)
    ensures Parse(env, address) ==
      match Addresses.Parse(HostOf(env), address)
      case None => None
      case Some(a) => Some(Addresses.Address(a.user, Bare(a.host), Shown(a.port)))
  {
    if Addresses.Parse(HostOf(env), address).Some? {
      var h := env.url(Addresses.SplitOnce(address, '@').value.1).value.0;
      TrimOpeningFolds(h);
      TrimClosingFolds(TrimOpening(h));
    }
  }

  lemma SameBareHost(env: Env, left: string, right: string, scheme: Option<string>, a: Addresses.Address, b: Addresses.Address)
    requires Parse(env, left) == Some(Addresses.Address(a.user, Bare(a.host), Shown(a.port)))
    requires Parse(env, right) == Some(Addresses.Address(b.user, Bare(b.host), Shown(b.port)))
    requires a.user == b.user && a.host == b.host
    ensures SameActor(env, left, right, scheme) <==>
      if DefaultPort(scheme).Some?
      then Shown(a.port).UnwrapOr(DefaultPort(scheme).value) == Shown(b.port).UnwrapOr(DefaultPort(scheme).value)
      else Shown(a.port) == Shown(b.port)
  {
  }

  /** For addresses of one user at one host, the matcher that guards deletes and the one that guards
      follows disagree exactly when one side alone names port 80 and the other has the default port
      of a scheme that is not http. */
  lemma MatchersDisagreeIff(env: Env, left: string, right: string, scheme: Option<string>, a: Addresses.Address, b: Addresses.Address)
    requires PortIsRead(env, left) && PortIsRead(env, right)
    requires Addresses.Parse(HostOf(env), left) == Some(a) && Addresses.Parse(HostOf(env), right) == Some(b)
    requires a.user == b.user && a.host == b.host
    ensures SameActor(env, left, right, scheme) != Addresses.Match(HostOf(env), left, right, DefaultPort(scheme)) <==>
      && DefaultPort(scheme) != Some(80)
      && ((a.port == Some(80) && b.port in {None, DefaultPort(scheme)}) || (b.port == Some(80) && a.port in {None, DefaultPort(scheme)}))
  {
    ReadAlike(env, left);
    ReadAlike(env, right);
    SameBareHost(env, left, right, scheme, a, b);
    Addresses.MatchNeedsHost(HostOf(env), left, right, DefaultPort(scheme));
  }

  // ---------------------------------------------------------------------------
  // The processor
  // ---------------------------------------------------------------------------

  class Processor {
    const env: Env
    const cache: TimelineCache.Cache
    const profileCache: ProfileCache.Cache
    var follows: set<string>
    var followers: map<string, Follower>
    var statuses: map<string, Status>
    var notifications: seq<Notification>
    var blocked: set<string>

    constructor (env: Env, cache: TimelineCache.Cache, profileCache: ProfileCache.Cache)
      requires cache.maxItems == env.maxCached && TimelineCache.UniqueUris(cache.rows) && profileCache.ttl == env.profileTtl
      ensures this.env == env && this.cache == cache && this.profileCache == profileCache && Valid()
      ensures Now() == State({}, map[], map[], cache.rows, [], {}, profileCache.rows, profileCache.lastPrune)
    {
      this.env := env;
      this.cache := cache;
      this.profileCache := profileCache;
      follows := {};
      followers := map[];
      statuses := map[];
      notifications := [];
      blocked := {};
    }

    ghost predicate Valid()
      reads this, cache
    {
      cache.maxItems == env.maxCached && TimelineCache.UniqueUris(cache.rows) && profileCache.ttl == env.profileTtl
    }

    ghost function Now(): State
      reads this, cache, profileCache
    {
      State(follows, followers, statuses, cache.rows, notifications, blocked, profileCache.rows, profileCache.lastPrune)
    }

    method CheckBlocked(actor: string) returns (isBlocked: bool)
      ensures isBlocked == IsBlocked(env, blocked, actor)
    {
      var domains := env.domains(actor);
      for i := 0 to |domains|
        invariant forall k :: 0 <= k < i ==> domains[k] !in blocked
      {
        if domains[i] in blocked {
          return true;
        }
      }
      return false;
    }

    method CheckFollowee(actor: string) returns (isFollowee: bool)
      ensures isFollowee == IsFollowee(env, follows, actor)
    {
      var todo := follows;
      while todo != {}
        invariant todo <= follows && forall f :: f in follows && f !in todo ==> !Owns(env, actor, f)
        decreases |todo|
      {
        var f :| f in todo;
        if Owns(env, actor, f) {
          return true;
        }
        todo := todo - {f};
      }
      return false;
    }

    method InsertNotification(kind: string, origin: string, status: Option<string>)
      modifies this`notifications
      ensures notifications == old(notifications) + [Notification(kind, origin, status)]
    {
      notifications := notifications + [Notification(kind, origin, status)];
    }

    method HandleCreate(input: Input, decision: Decision)
      requires Valid()
      modifies this`notifications, cache`rows
      ensures Valid() && Now() == AfterCreate(env, old(Now()), input, decision)
    {
      if Get(input.activity, "object").None? {
        return;
      }
      var obj := Get(input.activity, "object").value;
      if GetStr(obj, "type").UnwrapOr("Unknown") != "Note" && GetStr(obj, "type").UnwrapOr("Unknown") != "Article" {
        return;
      }
      var address := env.addressOf(input.actor);
      if decision == Persist && Mentions(env.local, obj) {
        InsertNotification("mention", address, GetStr(obj, "id"));
      }
      if decision == Persist {
        if RepliesToLocal(env.local, obj) {
          if !Mentions(env.local, obj) {
            InsertNotification("mention", address, GetStr(obj, "id"));
          }
        }
      }
      if decision == CacheOnly && GetStr(obj, "id").Some? {
        var c := CachedFrom(env, obj, input.actor, input.now);
        InsertKeepsUris(cache.rows, cache.maxItems, c.uri, c, input.now);
        cache.InsertStatus(c.uri, c.uri, c.account, c.createdAt, c.body, input.now);
      }
    }

    method HandleUpdate(input: Input)
      requires Valid()
      modifies profileCache
      ensures Now() == AfterUpdate(env, old(Now()), input)
    {
      profileCache.UpdateFromActivity(input.actor, env.actorObject(input.activity), input.now);
    }

    method HandleDelete(input: Input)
      requires Valid()
      modifies this`statuses, cache`rows
      ensures Valid() && Now() == AfterDelete(env, old(Now()), input)
    {
      if DeleteTarget(input.activity).None? {
        return;
      }
      var uri := DeleteTarget(input.activity).value;
      DeleteCached(uri, input.actor, input.now);
      if uri in statuses && !statuses[uri].isLocal && Owns(env, input.actor, statuses[uri].account) {
        var id := statuses[uri].id;
        statuses := map u | u in statuses && statuses[u].id != id :: statuses[u];
      }
    }

    method DeleteCached(uri: string, actor: string, now: int)
      requires Valid()
      modifies cache`rows
      ensures Valid() && cache.rows == DropCached(env, old(cache.rows), uri, actor, now)
    {
      var hit := cache.GetByUri(uri, now);
      if hit.Some? && Owns(env, actor, hit.value.account) {
        cache.RemoveByUri(uri);
      }
    }

    method HandleFollow(input: Input) returns (r: Outcome)
      modifies this`followers, this`notifications
      ensures (Now(), r) == AfterFollow(env, old(Now()), input)
    {
      var target := FollowTarget(input.activity);
      if target.None? || !env.isLocalTarget(target.value) {
        return Err(Validation);
      }
      var address := env.addressOf(input.actor);
      if address in followers {
        return Err(Database);
      }
      followers := followers[address := Follower(InboxOf(input), FollowUri(input))];
      InsertNotification("follow", address, None);
      return Ok(());
    }

    /** `delete_follower` and `delete_follower_by_address_and_uri`: one case-insensitive DELETE for
        each matching address. */
    method DeleteFollowers(actor: string, uri: Option<string>)
      requires Addresses.CaseBlind(HostOf(env))
      modifies this`followers
      ensures followers == DropFollowers(env, old(followers), if uri.Some? then ByUri(uri.value) else ByAddress, actor)
    {
      var matches := set a | a in followers && IsFollower(env, actor, a);
      forall a, d | a in followers && d in matches && SameFold(a, d) ensures a in matches {
        FoldedFollower(env, actor, d);
      }
      DeleteEach(matches, uri);
    }

    method DeleteEach(matches: set<string>, uri: Option<string>)
      requires forall a, d :: a in followers && d in matches && SameFold(a, d) ==> a in matches
      modifies this`followers
      ensures followers == map a | a in old(followers) && !(a in matches && Named(uri, old(followers)[a])) :: old(followers)[a]
    {
      ghost var was := followers;
      var todo := matches;
      while todo != {}
        invariant todo <= matches
        invariant forall a :: a in followers ==> a in was && followers[a] == was[a]
        invariant forall a :: a in was && !(a in matches && Named(uri, was[a])) ==> a in followers
        invariant forall a :: a in followers && a in matches && Named(uri, was[a]) ==> a in todo
        decreases |todo|
      {
        var existing :| existing in todo;
        followers := map a | a in followers && !(SameFold(a, existing) && Named(uri, followers[a])) :: followers[a];
        todo := todo - {existing};
      }
    }

    method HandleUndo(input: Input)
      requires Addresses.CaseBlind(HostOf(env))
      modifies this`followers
      ensures Now() == AfterUndo(env, old(Now()), input)
    {
      assert DropFollowers(env, followers, Nothing, input.actor) == followers;
      if Get(input.activity, "object").None? {
        return;
      }
      var obj := Get(input.activity, "object").value;
      if GetStr(obj, "type").Some? {
        if GetStr(obj, "type").value == "Follow" {
          var target := FollowTarget(obj);
          if target.None? || !env.isLocalTarget(target.value) {
            return;
          }
          DeleteFollowers(input.actor, GetStr(obj, "id"));
        }
      } else if obj.Str? {
        DeleteFollowers(input.actor, Some(obj.text));
      }
    }

    method HandleLike(input: Input) returns (r: Outcome)
      modifies this`notifications
      ensures (Now(), r) == AfterLike(env, old(Now()), input)
    {
      var uri := GetStr(input.activity, "object");
      if uri.None? {
        return Err(Validation);
      }
      if IsLocalStatus(env.local, uri.value) {
        InsertNotification("favourite", env.addressOf(input.actor), uri);
      }
      return Ok(());
    }

    method HandleAnnounce(input: Input) returns (r: Outcome)
      modifies this`notifications
      ensures (Now(), r) == AfterAnnounce(env, old(Now()), input)
    {
      if Get(input.activity, "object").None? {
        return Err(Validation);
      }
      var obj := Get(input.activity, "object").value;
      if obj.Obj? {
        if Mentions(env.local, obj) {
          InsertNotification("mention", env.addressOf(input.actor), GetStr(obj, "id"));
        }
      } else if obj.Str? {
        if IsLocalStatus(env.local, obj.text) {
          InsertNotification("reblog", env.addressOf(input.actor), Some(obj.text));
        }
      }
      return Ok(());
    }

    method ProcessActivity(input: Input) returns (r: Outcome)
      requires Valid() && Addresses.CaseBlind(HostOf(env))
      modifies this, cache`rows, profileCache
      ensures Valid() && (Now(), r) == Process(env, old(Now()), input)
    {
      var kind := KindOf(input.activity);
      if kind.None? {
        return Err(Validation);
      }
      var isBlocked := CheckBlocked(input.actor);
      if isBlocked {
        return Err(Forbidden);
      }
      var isFollowee := false;
      if kind.value == Create {
        isFollowee := CheckFollowee(input.actor);
      }
      var decision := Decide(env, input.activity, isFollowee);
      if decision == Ignore {
        return Ok(());
      }
      r := Handle(input, kind.value, decision);
    }

    method Handle(input: Input, kind: Kind, decision: Decision) returns (r: Outcome)
      requires Valid() && Addresses.CaseBlind(HostOf(env))
      modifies this, cache`rows, profileCache
      ensures Valid() && (Now(), r) == Handled(env, old(Now()), input, kind, decision)
    {
      r := Ok(());
      match kind {
        case Create => HandleCreate(input, decision);
        case Update => HandleUpdate(input);
        case Delete => HandleDelete(input);
        case Follow => r := HandleFollow(input);
        case Undo => HandleUndo(input);
        case Like => r := HandleLike(input);
        case Announce => r := HandleAnnounce(input);
        case _ =>
      }
    }
  }

  predicate Named(uri: Option<string>, f: Follower) {
    uri.Some? ==> f.uri == uri.value
  }

  lemma InsertKeepsUris(rows: TimelineCache.Rows, n: nat, id: string, c: TimelineCache.Cached, now: int)
    requires TimelineCache.UniqueUris(rows)
    ensures TimelineCache.UniqueUris(TimelineCache.Insert(rows, n, id, c, now))
  {
  }

  lemma FoldedFollower(env: Env, actor: string, existing: string)
    requires Addresses.CaseBlind(HostOf(env)) && IsFollower(env, actor, existing)
    ensures forall a :: SameFold(a, existing) ==> IsFollower(env, actor, a)
  {
    var port := DefaultPort(env.scheme(actor));
    forall a | SameFold(a, existing) ensures IsFollower(env, actor, a) {
      Addresses.FoldedMatch(HostOf(env), a, existing, port);
      Addresses.MatchIffSameAccount(HostOf(env), a, env.addressOf(actor), port);
      Addresses.MatchIffSameAccount(HostOf(env), existing, env.addressOf(actor), port);
    }
  }
}
