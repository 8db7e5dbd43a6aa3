/** Concrete inputs at which the inbox does not do what one would expect of it. */
module InboxExamples {
  import opened Wrappers
  import opened Text
  import opened Activities
  import opened Inbox
  import Addresses

  const OLD_ACTOR := "http://h:443/users/a"
  const ACTOR := "https://h/users/a"
  const ME := "me@home"

  /** A server with the local user `me@home`, for actors at the host `h`. */
  const SERVER := Env(
    ME, 10, 1000,
    uri => if uri == OLD_ACTOR then "a@h:443" else "a@h",
    uri => if uri == OLD_ACTOR then Some("http") else Some("https"),
    _ => [],
    authority => UrlOf(authority),
    target => target == ME,
    _ => None, content => content, _ => None)

  /** What the URL parser makes of three authorities, read as `http`. */
  function UrlOf(authority: string): Option<(string, Option<nat>)> {
    if authority == "h" || authority == "h:80" then Some(("h", None))
    else if authority == "h:443" then Some(("h", Some(443)))
    else None
  }

  const EMPTY := State({}, map[], map[], map[], [], {}, map[], 0)

  /** A follow under the activity id "f", and its undo. */
  const FOLLOW := Obj(map["type" := Str("Follow"), "id" := Str("f"), "object" := Str(ME)])
  const UNDO := Obj(map["type" := Str("Undo"), "object" := Str("f")])

  // ---------------------------------------------------------------------------
  // Reading the addresses
  // ---------------------------------------------------------------------------

  lemma NoPortNamed()
    ensures Addresses.ExplicitPort("h") == None
  {
    TrimFixpoint("h");
  }

  lemma EightyIsRead()
    ensures Addresses.ParsePort("80") == Some(80)
  {
    assert "80"[..1] == "8" && "8"[..0] == "";
    assert Addresses.ParseDecimal("8") == 8;
  }

  lemma Ports()
    ensures Addresses.ExplicitPort("h:443") == Some(443) && Addresses.ExplicitPort("h:80") == Some(80)
    ensures Addresses.ExplicitPort("h") == None
  {
    assert "h:443" == "h" + [':'] + "443" && "h:80" == "h" + [':'] + "80";
    assert !IsSpace('h') && ':' !in "h";
    Addresses.PlainPort("h", "443");
    Addresses.PlainPort("h", "80");
    Addresses.PortIsRead();
    EightyIsRead();
    NoPortNamed();
  }

  lemma AtH(authority: string)
    requires UrlOf(authority).Some?
    ensures Addresses.Parse(HostOf(SERVER), "a@" + authority) == Some(Addresses.Address("a", "h", Addresses.ExplicitPort(authority)))
    ensures Parse(SERVER, "a@" + authority) == Some(Addresses.Address("a", "h", UrlOf(authority).value.1))
  {
    assert "a@" + authority == "a" + ['@'] + authority;
    Addresses.SplitsAt("a@" + authority, "a", authority, '@');
    assert Lower("a") == "a" && Lower("h") == "h" && Bare("h") == "h";
  }

  // ---------------------------------------------------------------------------
  // The two matchers
  // ---------------------------------------------------------------------------

  lemma ByPorts(env: Env, left: string, right: string, scheme: Option<string>, p: Option<nat>, q: Option<nat>)
    requires Addresses.Parse(HostOf(env), left) == Some(Addresses.Address("a", "h", p))
    requires Addresses.Parse(HostOf(env), right) == Some(Addresses.Address("a", "h", q))
    ensures Addresses.Match(HostOf(env), left, right, DefaultPort(scheme)) <==>
      if DefaultPort(scheme).Some? then p.UnwrapOr(DefaultPort(scheme).value) == q.UnwrapOr(DefaultPort(scheme).value) else p == q
  {
    Addresses.MatchNeedsHost(HostOf(env), left, right, DefaultPort(scheme));
  }

  lemma SameByUrl(env: Env, left: string, right: string, scheme: Option<string>)
    requires Parse(env, left) == Parse(env, right) && Parse(env, left).Some?
    ensures SameActor(env, left, right, scheme)
  {
  }

  /** Under https "a@h:80" and "a@h" are one actor to the inbox's matcher and two accounts to the
      database's. */
  lemma MatchersDisagreeOnPort80()
    ensures SameActor(SERVER, "a@" + "h:80", "a@" + "h", Some("https"))
    ensures !Addresses.Match(HostOf(SERVER), "a@" + "h:80", "a@" + "h", DefaultPort(Some("https")))
  {
    Ports();
    AtH("h:80");
    AtH("h");
    SameByUrl(SERVER, "a@" + "h:80", "a@" + "h", Some("https"));
    ByPorts(SERVER, "a@" + "h:80", "a@" + "h", Some("https"), Some(80), None);
  }

  // ---------------------------------------------------------------------------
  // Undoing a follow
  // ---------------------------------------------------------------------------

  lemma ActorFacts()
    ensures SERVER.addressOf(ACTOR) == "a@" + "h" && SERVER.scheme(ACTOR) == Some("https")
    ensures SERVER.addressOf(OLD_ACTOR) == "a@" + "h:443"
  {
    assert OLD_ACTOR[4] == ':' && ACTOR[4] == 's';
    assert "a@" + "h" == "a@h" && "a@" + "h:443" == "a@h:443";
  }

  lemma BothRowsMatch()
    ensures IsFollower(SERVER, ACTOR, "a@" + "h:443")
  {
    Ports();
    AtH("h:443");
    AtH("h");
    ActorFacts();
    ByPorts(SERVER, "a@" + "h:443", "a@" + "h", Some("https"), Some(443), None);
  }

  lemma FollowIsAccepted(s: State, actor: string, now: int)
    requires s.blocked == {} && SERVER.addressOf(actor) !in s.followers
    ensures var input := Input(FOLLOW, actor, now);
      KindOf(FOLLOW) == Some(Follow) && FollowUri(input) == "f"
      && Process(SERVER, s, input).1 == Ok(())
      && Process(SERVER, s, input).0.followers == s.followers[SERVER.addressOf(actor) := Follower(InboxOf(input), "f")]
      && Process(SERVER, s, input).0.blocked == {}
  {
    assert FOLLOW.fields["type"] == Str("Follow") && FOLLOW.fields["id"] == Str("f") && FOLLOW.fields["object"] == Str(ME);
    assert KindOf(FOLLOW) == Some(Follow);
  }

  lemma UndoNamesTheFollow()
    ensures KindOf(UNDO) == Some(Undo) && UndoRemoval(SERVER, UNDO) == ByUri("f")
  {
    assert UNDO.fields["type"] == Str("Undo") && UNDO.fields["object"] == Str("f");
  }

  /** The actor followed from its old address on port 443, then from its new one, under one activity
      id. Undoing the second follow removes both rows. */
  lemma UndoTakesBothRows()
    ensures var before := Process(SERVER, EMPTY, Input(FOLLOW, OLD_ACTOR, 0)).0;
      var undone := Run(SERVER, before, [Input(FOLLOW, ACTOR, 1), Input(UNDO, ACTOR, 2)]);
      "a@" + "h:443" in before.followers && "a@" + "h:443" !in undone.followers
  {
    var follow, undo := Input(FOLLOW, ACTOR, 1), Input(UNDO, ACTOR, 2);
    ActorFacts();
    FollowIsAccepted(EMPTY, OLD_ACTOR, 0);
    var followed := Process(SERVER, EMPTY, Input(FOLLOW, OLD_ACTOR, 0)).0;
    assert |"a@" + "h:443"| != |"a@" + "h"|;
    FollowIsAccepted(followed, ACTOR, 1);
    UndoNamesTheFollow();
    BothRowsMatch();
    UndoTakesOlderRow(SERVER, followed, follow, undo, "a@" + "h:443");
  }
}
