/** ActivityPub activities as JSON values, and what the processor reads off them. */
module Activities {
  import opened Wrappers
  import opened Text

  /** A JSON value; null, booleans and numbers carry nothing the processor reads. */
  datatype Json = Scalar | Str(text: string) | Arr(items: seq<Json>) | Obj(fields: map<string, Json>)

  function Get(j: Json, key: string): Option<Json> {
    if j.Obj? && key in j.fields then Some(j.fields[key]) else None
  }

  function AsStr(j: Json): Option<string> {
    if j.Str? then Some(j.text) else None
  }

  function GetStr(j: Json, key: string): Option<string> {
    match Get(j, key)
    case None => None
    case Some(v) => AsStr(v)
  }

  function OrElse(a: Option<string>, b: Option<string>): Option<string> {
    if a.Some? then a else b
  }

  datatype Kind = Create | Update | Delete | Follow | Accept | Reject | Undo | Like | Announce | Block

  function KindFrom(s: string): Option<Kind> {
    match s
    case "Create" => Some(Create)
    case "Update" => Some(Update)
    case "Delete" => Some(Delete)
    case "Follow" => Some(Follow)
    case "Accept" => Some(Accept)
    case "Reject" => Some(Reject)
    case "Undo" => Some(Undo)
    case "Like" => Some(Like)
    case "Announce" => Some(Announce)
    case "Block" => Some(Block)
    case _ => None
  }

  function KindOf(activity: Json): Option<Kind> {
    match GetStr(activity, "type")
    case None => None
    case Some(s) => KindFrom(s)
  }

  /** `extract_follow_target` */
  function FollowTarget(activity: Json): Option<string> {
    match Get(activity, "object")
    case None => None
    case Some(obj) => OrElse(AsStr(obj), GetStr(obj, "id"))
  }

  /** `extract_delete_target_uri` */
  function DeleteTarget(activity: Json): Option<string> {
    match Get(activity, "object")
    case None => None
    case Some(obj) =>
      if obj.Str? then Some(obj.text)
      else if GetStr(obj, "type").Some? && SameFold(GetStr(obj, "type").value, "Tombstone") then
        OrElse(GetStr(obj, "object"), GetStr(obj, "id"))
      else
        OrElse(GetStr(obj, "id"), GetStr(obj, "object"))
  }

  // ---------------------------------------------------------------------------
  // What concerns the local user
  // ---------------------------------------------------------------------------

  /** Where `part` first occurs. */
  function Find(s: string, part: string): (at: Option<nat>)
    ensures at.Some? ==> at.value + |part| <= |s| && s[at.value..at.value + |part|] == part
  {
    if part <= s then Some(0)
    else if s == "" then None
    else match Find(s[1..], part) case None => None case Some(i) => Some(i + 1)
  }

  predicate Contains(s: string, part: string) {
    Find(s, part).Some?
  }

  function Before(s: string, part: string): string {
    match Find(s, part) case Some(i) => s[..i] case None => s
  }

  function SecondPart(s: string, part: string): Option<string> {
    match Find(s, part)
    case None => None
    case Some(i) => Some(Before(s[i + |part|..], part))
  }

  predicate EndsWith(s: string, tail: string) {
    |tail| <= |s| && s[|s| - |tail|..] == tail
  }

  /** `is_local_status` */
  predicate IsLocalStatus(local: string, uri: string) {
    || Contains(uri, local)
    || (&& Contains(uri, "/users/")
        && SecondPart(uri, "://").Some?
        && EndsWith(local, Before(SecondPart(uri, "://").value, "/")))
  }

  predicate ListNames(local: string, list: Option<Json>) {
    list.Some? && list.value.Arr? &&
    exists i :: 0 <= i < |list.value.items| && list.value.items[i].Str? && Contains(list.value.items[i].text, local)
  }

  predicate TagNames(local: string, tag: Json) {
    && GetStr(tag, "type") == Some("Mention")
    && GetStr(tag, "href").Some? && Contains(GetStr(tag, "href").value, local)
  }

  /** `mentions_local_user` */
  predicate Mentions(local: string, obj: Json) {
    || ListNames(local, Get(obj, "to"))
    || ListNames(local, Get(obj, "cc"))
    || (var tags := Get(obj, "tag");
        tags.Some? && tags.value.Arr? && exists i :: 0 <= i < |tags.value.items| && TagNames(local, tags.value.items[i]))
  }

  predicate RepliesToLocal(local: string, obj: Json) {
    GetStr(obj, "inReplyTo").Some? && IsLocalStatus(local, GetStr(obj, "inReplyTo").value)
  }

  // ---------------------------------------------------------------------------
  // What the readings mean
  // ---------------------------------------------------------------------------

  function NameOf(kind: Kind): string {
    match kind
    case Create => "Create"
    case Update => "Update"
    case Delete => "Delete"
    case Follow => "Follow"
    case Accept => "Accept"
    case Reject => "Reject"
    case Undo => "Undo"
    case Like => "Like"
    case Announce => "Announce"
    case Block => "Block"
  }

  /** A type is known exactly by its name, letter for letter. */
  lemma KindsHaveNames(s: string, kind: Kind)
    ensures KindFrom(s) == Some(kind) <==> s == NameOf(kind)
  {
  }

  predicate HoldsAt(s: string, part: string, i: nat) {
    i + |part| <= |s| && s[i..i + |part|] == part
  }

  lemma HoldsLater(s: string, part: string, i: nat)
    requires s != ""
    ensures HoldsAt(s, part, i + 1) <==> HoldsAt(s[1..], part, i)
  {
    if i + 1 + |part| <= |s| {
      assert s[i + 1..i + 1 + |part|] == s[1..][i..i + |part|];
    }
  }

  /** The search finds the first place, if there is one. */
  lemma {:induction false} FindIsFirst(s: string, part: string, i: nat)
    ensures HoldsAt(s, part, i) ==> Find(s, part).Some? && Find(s, part).value <= i
    ensures Find(s, part).Some? ==> HoldsAt(s, part, Find(s, part).value)
  {
    if s != "" && !(part <= s) && i > 0 {
      HoldsLater(s, part, i - 1);
      FindIsFirst(s[1..], part, i - 1);
    }
  }

  lemma ContainsAround(a: string, part: string, b: string)
    ensures Contains(a + part + b, part)
  {
    assert (a + part + b)[|a|..|a| + |part|] == part;
    FindIsFirst(a + part + b, part, |a|);
  }

  lemma ContainsSplits(s: string, part: string) returns (a: string, b: string)
    requires Contains(s, part)
    ensures s == a + part + b
  {
    var i := Find(s, part).value;
    a, b := s[..i], s[i + |part|..];
  }

  /** A text that names the user in `to` or `cc`. */
  predicate ListedIn(obj: Json, key: string, text: string) {
    Get(obj, key).Some? && Get(obj, key).value.Arr? && Str(text) in Get(obj, key).value.items
  }

  /** The link of a Mention tag. */
  predicate TaggedIn(obj: Json, text: string) {
    Get(obj, "tag").Some? && Get(obj, "tag").value.Arr? &&
    exists t :: t in Get(obj, "tag").value.items && GetStr(t, "type") == Some("Mention") && GetStr(t, "href") == Some(text)
  }

  /** A text around the user's address in `to`, in `cc` or in a Mention tag is a mention. */
  lemma NamedIsMentioned(local: string, obj: Json, a: string, b: string)
    requires var text := a + local + b; ListedIn(obj, "to", text) || ListedIn(obj, "cc", text) || TaggedIn(obj, text)
    ensures Mentions(local, obj)
  {
    var text := a + local + b;
    ContainsAround(a, local, b);
    if ListedIn(obj, "to", text) {
      var i :| 0 <= i < |Get(obj, "to").value.items| && Get(obj, "to").value.items[i] == Str(text);
      assert Get(obj, "to").value.items[i].Str?;
    } else if ListedIn(obj, "cc", text) {
      var i :| 0 <= i < |Get(obj, "cc").value.items| && Get(obj, "cc").value.items[i] == Str(text);
      assert Get(obj, "cc").value.items[i].Str?;
    } else {
      var t :| t in Get(obj, "tag").value.items && GetStr(t, "type") == Some("Mention") && GetStr(t, "href") == Some(text);
      var i :| 0 <= i < |Get(obj, "tag").value.items| && Get(obj, "tag").value.items[i] == t;
      assert TagNames(local, Get(obj, "tag").value.items[i]);
    }
  }

  lemma ListNamesSplits(local: string, obj: Json, key: string) returns (a: string, b: string)
    requires ListNames(local, Get(obj, key))
    ensures ListedIn(obj, key, a + local + b)
  {
    var items := Get(obj, key).value.items;
    var i :| 0 <= i < |items| && items[i].Str? && Contains(items[i].text, local);
    a, b := ContainsSplits(items[i].text, local);
    assert items[i] == Str(a + local + b);
  }

  /** And there is no mention without such a text. */
  lemma MentionIsNamed(local: string, obj: Json) returns (a: string, b: string)
    requires Mentions(local, obj)
    ensures var text := a + local + b; ListedIn(obj, "to", text) || ListedIn(obj, "cc", text) || TaggedIn(obj, text)
  {
    if ListNames(local, Get(obj, "to")) {
      a, b := ListNamesSplits(local, obj, "to");
    } else if ListNames(local, Get(obj, "cc")) {
      a, b := ListNamesSplits(local, obj, "cc");
    } else {
      var items := Get(obj, "tag").value.items;
      var i :| 0 <= i < |items| && TagNames(local, items[i]);
      a, b := ContainsSplits(GetStr(items[i], "href").value, local);
      assert items[i] in items && GetStr(items[i], "href") == Some(a + local + b);
    }
  }

  /** The forms a Delete and a Follow name their target in. */
  lemma TargetForms(uri: string, other: string)
    ensures DeleteTarget(Obj(map["object" := Str(uri)])) == Some(uri)
    ensures DeleteTarget(Obj(map["object" := Obj(map["id" := Str(uri)])])) == Some(uri)
    ensures DeleteTarget(Obj(map["object" := Obj(map["id" := Str(uri), "object" := Str(other)])])) == Some(uri)
    ensures DeleteTarget(Obj(map["object" := Obj(map["type" := Str("tombstone"), "id" := Str(other), "object" := Str(uri)])])) == Some(uri)
    ensures DeleteTarget(Obj(map["object" := Obj(map["type" := Str("Tombstone"), "id" := Str(uri)])])) == Some(uri)
    ensures DeleteTarget(Obj(map[])) == None
    ensures FollowTarget(Obj(map["object" := Str(uri)])) == Some(uri)
    ensures FollowTarget(Obj(map["object" := Obj(map["id" := Str(uri)])])) == Some(uri)
    ensures FollowTarget(Obj(map[])) == None && FollowTarget(Obj(map["object" := Obj(map[])])) == None
  {
    assert Lower("tombstone") == Lower("Tombstone");
  }

  // ---------------------------------------------------------------------------
  // Local statuses
  // ---------------------------------------------------------------------------

  lemma FindAt(s: string, part: string, i: nat)
    requires HoldsAt(s, part, i) && forall j :: 0 <= j < i ==> !HoldsAt(s, part, j)
    ensures Find(s, part) == Some(i)
  {
    FindIsFirst(s, part, i);
    FindIsFirst(s, part, Find(s, part).value);
  }

  /** What stands before the first `/`. */
  lemma BeforeSlash(domain: string, rest: string)
    requires '/' !in domain
    ensures Before(domain + ("/" + rest), "/") == domain
  {
    var s := domain + ("/" + rest);
    assert s[|domain|..|domain| + 1] == "/";
    forall j | 0 <= j < |domain| ensures !HoldsAt(s, "/", j) {
      assert s[j..j + 1] == [domain[j]];
    }
    FindAt(s, "/", |domain|);
  }

  /** The host of a URI with a scheme. */
  lemma HostPart(scheme: string, domain: string, path: string)
    requires ':' !in scheme && '/' !in domain && (domain != "" ==> domain[|domain| - 1] != ':') && (path != "" ==> path[0] != '/')
    ensures var second := SecondPart(scheme + ("://" + (domain + ("/" + path))), "://");
      second.Some? && Before(second.value, "/") == domain
  {
    var after := domain + ("/" + path);
    var uri := scheme + ("://" + after);
    assert uri[|scheme|..|scheme| + 3] == "://" && uri[|scheme| + 3..] == after;
    forall j | 0 <= j < |scheme| ensures !HoldsAt(uri, "://", j) {
      assert uri[j] == scheme[j];
    }
    FindAt(uri, "://", |scheme|);
    HostBeforeRepeat(domain, path);
  }

  lemma RepeatComesLater(domain: string, path: string, i: nat)
    requires '/' !in domain && (domain != "" ==> domain[|domain| - 1] != ':')
    requires HoldsAt(domain + ("/" + path), "://", i)
    ensures i > |domain|
  {
    var after := domain + ("/" + path);
    forall j | 0 <= j < |domain| ensures after[j] == domain[j] && after[j] != '/' {
    }
    assert after[|domain|] == '/' && (domain != "" ==> after[|domain| - 1] != ':');
    assert after[i] == after[i..i + 3][0] && after[i + 1] == after[i..i + 3][1];
  }

  lemma HostBeforeRepeat(domain: string, path: string)
    requires '/' !in domain && (domain != "" ==> domain[|domain| - 1] != ':') && (path != "" ==> path[0] != '/')
    ensures Before(Before(domain + ("/" + path), "://"), "/") == domain
  {
    var after := domain + ("/" + path);
    var at := Find(after, "://");
    if at.Some? {
      var i := at.value;
      RepeatComesLater(domain, path, i);
      assert after[..i] == domain + ("/" + path[..i - |domain| - 1]);
      BeforeSlash(domain, path[..i - |domain| - 1]);
    } else {
      BeforeSlash(domain, path);
    }
  }

  /** Every status under `/users/` on the server's own domain is local. */
  lemma OwnStatusIsLocal(user: string, domain: string, scheme: string, rest: string)
    requires ':' !in scheme && '/' !in domain && (domain != "" ==> domain[|domain| - 1] != ':')
    ensures IsLocalStatus(user + "@" + domain, scheme + ("://" + (domain + ("/" + ("users/" + rest)))))
  {
    var path := "users/" + rest;
    HostPart(scheme, domain, path);
    UsersPath(scheme, domain, rest);
    AddressEndsWith(user, domain);
  }

  lemma UsersPath(scheme: string, domain: string, rest: string)
    ensures Contains(scheme + ("://" + (domain + ("/" + ("users/" + rest)))), "/users/")
  {
    var front := scheme + ("://" + domain);
    assert scheme + ("://" + (domain + ("/" + ("users/" + rest)))) == front + "/users/" + rest;
    ContainsAround(front, "/users/", rest);
  }

  lemma AddressEndsWith(user: string, domain: string)
    ensures EndsWith(user + "@" + domain, domain)
  {
    assert (user + "@" + domain)[|user| + 1..] == domain;
  }

  /** One on a domain that the user's address does not end in is not, unless it contains the address. */
  lemma ForeignStatusIsNotLocal(local: string, scheme: string, domain: string, path: string)
    requires ':' !in scheme && '/' !in domain && (domain != "" ==> domain[|domain| - 1] != ':') && (path != "" ==> path[0] != '/')
    requires !EndsWith(local, domain)
    ensures var uri := scheme + ("://" + (domain + ("/" + path))); IsLocalStatus(local, uri) <==> Contains(uri, local)
  {
    HostPart(scheme, domain, path);
  }
}
