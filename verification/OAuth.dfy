/** Single-use authorization codes under concurrent redemption, and the tokens minted from them. */
module OAuth {
  import opened Wrappers
  import opened OAuthRequests
  import Text

  // ---------------------------------------------------------------------------
  // Tables and requests
  // ---------------------------------------------------------------------------

  datatype Grant = ClientCredentials | AuthorizationCode

  /** `redeemer` is the request that minted the token; it is not a column. */
  datatype Token = Token(appId: nat, grant: Grant, scopes: string, redeemer: nat)

  /** How far a token request with grant type authorization_code has come. */
  datatype Redeemer =
    | Asked(app: App, code: string, redirectUri: string, scope: Option<string>)
    | Purging(codeId: nat)
    | Selected(codeId: nat, row: Code, app: App, scope: Option<string>)
    | Consumed(codeId: nat, row: Code, app: App, scope: Option<string>)
    | Issued(codeId: nat, tokenId: nat)
    | Refused(error: AppError)

  /** `issued` remembers every code ever inserted, under its id. */
  datatype State = State(
    apps: map<string, App>, codes: map<nat, Code>, issued: map<nat, Code>,
    redeemers: map<nat, Redeemer>, tokens: map<nat, Token>)

  const CODE_TTL_SECONDS: int := 600

  /** The request rules the protocol applies. What it guarantees follows from their being applied,
      whatever they say, once `validate` only lets through what `within` allows. */
  datatype Rules = Rules(
    validate: (map<string, App>, AuthorizeRequest) -> Result<(App, string, string), AppError>,
    authenticate: (map<string, App>, TokenRequest) -> Result<App, AppError>,
    present: Option<string> -> Option<string>,
    requested: (Option<string>, string) -> string,
    within: (string, string) -> bool)

  const RULES := Rules(
    (apps, req) => ValidateAuthorize(apps, req), (apps, req) => AuthenticateClient(apps, req),
    field => Present(field), (scope, fallback) => RequestedScopes(scope, fallback),
    (requested, allowed) => ScopesAreSubset(requested, allowed))

  ghost predicate Sound(x: Rules) {
    && (forall apps, req :: x.validate(apps, req).Ok? ==>
          var (app, _, requested) := x.validate(apps, req).value;
          x.within(requested, app.scopes) && exists a :: a in apps && apps[a] == app)
    && (forall apps, req :: x.authenticate(apps, req).Ok? ==>
          exists a :: a in apps && apps[a] == x.authenticate(apps, req).value)
  }

  lemma RulesAreSound()
    ensures Sound(RULES)
  {
    forall apps, req | RULES.validate(apps, req).Ok?
      ensures var (app, _, requested) := RULES.validate(apps, req).value;
        RULES.within(requested, app.scopes) && exists a :: a in apps && apps[a] == app
    {
      ValidatedRequestIsSound(apps, req);
    }
    forall apps, req | RULES.authenticate(apps, req).Ok?
      ensures exists a :: a in apps && apps[a] == RULES.authenticate(apps, req).value
    {
      assert apps[req.clientId] == RULES.authenticate(apps, req).value;
    }
  }

  /** Each step is one SQL statement or a check between two of them. */
  datatype Step =
    | Authorize(req: AuthorizeRequest, id: nat, text: string, now: int)
    | Ask(r: nat, tokenReq: TokenRequest)
    | SelectCode(r: nat, hit: Option<nat>, now: int)
    | DeleteExpired(r: nat)
    | DeleteCode(r: nat)
    | Mint(r: nat, tokenId: nat)
    | ClientToken(tokenReq: TokenRequest, tokenId: nat)

  /** Ids and code texts are generated, never repeated; `hit` is the row the SELECT found. */
  predicate Enabled(s: State, step: Step) {
    match step
    case Authorize(_, id, text, _) => id !in s.issued && forall i :: i in s.issued ==> s.issued[i].text != text
    case Ask(r, _) => r !in s.redeemers
    case SelectCode(r, hit, _) =>
      && r in s.redeemers && s.redeemers[r].Asked?
      && (match hit
          case Some(id) => id in s.codes && s.codes[id].text == s.redeemers[r].code
          case None => forall id :: id in s.codes ==> s.codes[id].text != s.redeemers[r].code)
    case DeleteExpired(r) => r in s.redeemers && s.redeemers[r].Purging?
    case DeleteCode(r) => r in s.redeemers && s.redeemers[r].Selected?
    case Mint(r, tokenId) => r in s.redeemers && s.redeemers[r].Consumed? && tokenId !in s.tokens
    case ClientToken(_, tokenId) => tokenId !in s.tokens
  }

  function Set(s: State, r: nat, u: Redeemer): State {
    s.(redeemers := s.redeemers[r := u])
  }

  function DoAuthorize(x: Rules, s: State, req: AuthorizeRequest, id: nat, text: string, now: int): State {
    match x.validate(s.apps, req)
    case Err(_) => s
    case Ok((app, redirect, requested)) =>
      var row := Code(app.id, text, redirect, requested, now + CODE_TTL_SECONDS);
      s.(codes := s.codes[id := row], issued := s.issued[id := row])
  }

  function DoAsk(x: Rules, s: State, r: nat, req: TokenRequest): State {
    var app := x.authenticate(s.apps, req);
    Set(s, r,
      if app.Err? then Refused(app.error)
      else if x.present(req.code).None? || x.present(req.redirectUri).None? then Refused(Validation)
      else Asked(app.value, x.present(req.code).value, x.present(req.redirectUri).value, req.scope))
  }

  /** What the SELECT tells a redeemer. */
  function Decide(u: Redeemer, id: nat, row: Code, now: int): Redeemer
    requires u.Asked?
  {
    if row.expiresAt <= now then Purging(id)
    else if row.appId != u.app.id || row.redirectUri != u.redirectUri then Refused(Unauthorized)
    else Selected(id, row, u.app, u.scope)
  }

  function DoDelete(s: State, r: nat): State
    requires r in s.redeemers && s.redeemers[r].Selected?
  {
    var u := s.redeemers[r];
    if u.codeId in s.codes then Set(s.(codes := s.codes - {u.codeId}), r, Consumed(u.codeId, u.row, u.app, u.scope))
    else Set(s, r, Refused(Unauthorized))
  }

  function DoMint(x: Rules, s: State, r: nat, tokenId: nat): State
    requires r in s.redeemers && s.redeemers[r].Consumed?
  {
    var u := s.redeemers[r];
    var requested := x.requested(u.scope, u.row.scopes);
    if !x.within(requested, u.row.scopes) || !x.within(requested, u.app.scopes) then Set(s, r, Refused(Unauthorized))
    else Set(s.(tokens := s.tokens[tokenId := Token(u.app.id, AuthorizationCode, requested, r)]), r, Issued(u.codeId, tokenId))
  }

  function DoClientToken(x: Rules, s: State, req: TokenRequest, tokenId: nat): State {
    match x.authenticate(s.apps, req)
    case Err(_) => s
    case Ok(app) =>
      var requested := x.requested(req.scope, app.scopes);
      if !x.within(requested, app.scopes) then s
      else s.(tokens := s.tokens[tokenId := Token(app.id, ClientCredentials, requested, 0)])
  }

  function Do(x: Rules, s: State, step: Step): State
    requires Enabled(s, step)
  {
    match step
    case Authorize(req, id, text, now) => DoAuthorize(x, s, req, id, text, now)
    case Ask(r, req) => DoAsk(x, s, r, req)
    case SelectCode(r, hit, now) =>
      Set(s, r, if hit.None? then Refused(Unauthorized) else Decide(s.redeemers[r], hit.value, s.codes[hit.value], now))
    case DeleteExpired(r) => Set(s.(codes := s.codes - {s.redeemers[r].codeId}), r, Refused(Unauthorized))
    case DeleteCode(r) => DoDelete(s, r)
    case Mint(r, tokenId) => DoMint(x, s, r, tokenId)
    case ClientToken(req, tokenId) => DoClientToken(x, s, req, tokenId)
  }

  function Run(x: Rules, s: State, steps: seq<Step>): State
    decreases |steps|
  {
    if steps == [] then s
    else Run(x, if Enabled(s, steps[0]) then Do(x, s, steps[0]) else s, steps[1..])
  }

  // ---------------------------------------------------------------------------
  // The invariant
  // ---------------------------------------------------------------------------

  /** The code a redeemer has taken for itself. */
  function Taken(s: State, r: nat): Option<nat> {
    if r in s.redeemers && (s.redeemers[r].Consumed? || s.redeemers[r].Issued?) then Some(s.redeemers[r].codeId) else None
  }

  ghost predicate AppKnown(s: State, app: App) {
    exists a :: a in s.apps && s.apps[a] == app
  }

  /** The code's scopes lie within those of the app it was issued to. */
  ghost predicate CodeWithinApp(x: Rules, s: State, row: Code) {
    exists a :: a in s.apps && s.apps[a].id == row.appId && x.within(row.scopes, s.apps[a].scopes)
  }

  ghost predicate CodesInv(x: Rules, s: State) {
    && (forall id :: id in s.codes ==> id in s.issued && s.issued[id] == s.codes[id])
    && (forall i, j :: i in s.issued && j in s.issued && i != j ==> s.issued[i].text != s.issued[j].text)
    && (forall id :: id in s.issued ==> CodeWithinApp(x, s, s.issued[id]))
  }

  ghost predicate KnowsCode(s: State, codeId: nat, row: Code, app: App) {
    codeId in s.issued && s.issued[codeId] == row && row.appId == app.id && AppKnown(s, app)
  }

  /** What is known of a redeemer by itself. */
  ghost predicate RedeemerInv(s: State, r: nat, u: Redeemer) {
    match u
    case Asked(app, _, _, _) => AppKnown(s, app)
    case Selected(codeId, row, app, _) => KnowsCode(s, codeId, row, app)
    case Consumed(codeId, row, app, _) => KnowsCode(s, codeId, row, app) && codeId !in s.codes
    case Issued(codeId, tokenId) =>
      && codeId in s.issued && codeId !in s.codes && tokenId in s.tokens
      && s.tokens[tokenId].grant == AuthorizationCode && s.tokens[tokenId].redeemer == r
    case _ => true
  }

  ghost predicate RedeemersInv(s: State) {
    && (forall r :: r in s.redeemers ==> RedeemerInv(s, r, s.redeemers[r]))
    && (forall q, r :: q != r && Taken(s, q).Some? ==> Taken(s, q) != Taken(s, r))
  }

  ghost predicate TokenWithinApp(x: Rules, s: State, t: Token) {
    exists a :: a in s.apps && s.apps[a].id == t.appId && x.within(t.scopes, s.apps[a].scopes)
  }

  /** An authorization-code token goes back to one redeemer and its code. */
  predicate FromCode(x: Rules, s: State, t: nat)
    requires t in s.tokens
  {
    var r := s.tokens[t].redeemer;
    && r in s.redeemers && s.redeemers[r].Issued? && s.redeemers[r].tokenId == t
    && s.redeemers[r].codeId in s.issued
    && s.issued[s.redeemers[r].codeId].appId == s.tokens[t].appId
    && x.within(s.tokens[t].scopes, s.issued[s.redeemers[r].codeId].scopes)
  }

  ghost predicate TokensInv(x: Rules, s: State) {
    forall t :: t in s.tokens ==>
      TokenWithinApp(x, s, s.tokens[t]) && (s.tokens[t].grant == AuthorizationCode ==> FromCode(x, s, t))
  }

  ghost predicate Inv(x: Rules, s: State) {
    CodesInv(x, s) && RedeemersInv(s) && TokensInv(x, s)
  }

  /** Before any code is issued the invariant holds. */
  lemma StartIsSound(x: Rules, s: State)
    requires s.codes == map[] && s.issued == map[] && s.tokens == map[] && s.redeemers == map[]
    ensures Inv(x, s)
  {
  }

  /** Between `s` and `t` nothing changed but redeemer `r` and some rows deleted from the codes. */
  ghost predicate OnlyRedeemer(s: State, t: State, r: nat) {
    && t.apps == s.apps && t.issued == s.issued && t.tokens == s.tokens
    && (forall id :: id in t.codes ==> id in s.codes && t.codes[id] == s.codes[id])
    && (forall q :: q != r ==> (q in s.redeemers <==> q in t.redeemers) && (q in s.redeemers ==> t.redeemers[q] == s.redeemers[q]))
    && r in t.redeemers
    && (r in s.redeemers ==> !s.redeemers[r].Issued?)
  }

  lemma KeepCodes(x: Rules, s: State, t: State, r: nat)
    requires CodesInv(x, s) && OnlyRedeemer(s, t, r)
    ensures CodesInv(x, t)
  {
    forall id | id in t.issued ensures CodeWithinApp(x, t, t.issued[id]) {
      assert CodeWithinApp(x, s, s.issued[id]);
    }
  }

  lemma KeepTokens(x: Rules, s: State, t: State, r: nat)
    requires TokensInv(x, s) && OnlyRedeemer(s, t, r)
    ensures TokensInv(x, t)
  {
    forall k | k in t.tokens
      ensures TokenWithinApp(x, t, t.tokens[k]) && (t.tokens[k].grant == AuthorizationCode ==> FromCode(x, t, k))
    {
      assert TokenWithinApp(x, s, s.tokens[k]) && (s.tokens[k].grant == AuthorizationCode ==> FromCode(x, s, k));
    }
  }

  /** The other redeemers know what they knew. */
  lemma KeepOthers(s: State, t: State, r: nat)
    requires RedeemersInv(s) && OnlyRedeemer(s, t, r)
    ensures forall q :: q in t.redeemers && q != r ==> RedeemerInv(t, q, t.redeemers[q])
    ensures forall q :: q != r ==> Taken(t, q) == Taken(s, q)
  {
    forall q | q in t.redeemers && q != r ensures RedeemerInv(t, q, t.redeemers[q]) {
      assert RedeemerInv(s, q, s.redeemers[q]);
      assert forall app :: AppKnown(s, app) ==> AppKnown(t, app);
    }
  }

  lemma RedeemerStep(x: Rules, s: State, t: State, r: nat)
    requires Inv(x, s) && OnlyRedeemer(s, t, r)
    requires RedeemerInv(t, r, t.redeemers[r])
    requires Taken(t, r).Some? ==> forall q :: q != r ==> Taken(s, q) != Taken(t, r)
    ensures Inv(x, t)
  {
    KeepCodes(x, s, t, r);
    KeepTokens(x, s, t, r);
    KeepOthers(s, t, r);
  }

  lemma AuthorizeKeepsInv(x: Rules, s: State, req: AuthorizeRequest, id: nat, text: string, now: int)
    requires Sound(x) && Inv(x, s) && Enabled(s, Authorize(req, id, text, now))
    ensures Inv(x, DoAuthorize(x, s, req, id, text, now))
  {
    var t := DoAuthorize(x, s, req, id, text, now);
    if x.validate(s.apps, req).Ok? {
      assert CodeWithinApp(x, t, t.issued[id]);
      forall i | i in t.issued ensures CodeWithinApp(x, t, t.issued[i]) {
        if i != id { assert CodeWithinApp(x, s, s.issued[i]); }
      }
      forall r | r in t.redeemers ensures RedeemerInv(t, r, t.redeemers[r]) {
        assert RedeemerInv(s, r, s.redeemers[r]);
        assert forall app :: AppKnown(s, app) ==> AppKnown(t, app);
      }
      forall r ensures Taken(t, r) == Taken(s, r) {}
      forall k | k in t.tokens
        ensures TokenWithinApp(x, t, t.tokens[k]) && (t.tokens[k].grant == AuthorizationCode ==> FromCode(x, t, k))
      {
        assert TokenWithinApp(x, s, s.tokens[k]) && (s.tokens[k].grant == AuthorizationCode ==> FromCode(x, s, k));
      }
    }
  }

  lemma AskKeepsInv(x: Rules, s: State, r: nat, req: TokenRequest)
    requires Sound(x) && Inv(x, s) && r !in s.redeemers
    ensures Inv(x, DoAsk(x, s, r, req))
  {
    var t := DoAsk(x, s, r, req);
    if x.authenticate(s.apps, req).Ok? { assert AppKnown(t, x.authenticate(s.apps, req).value); }
    RedeemerStep(x, s, t, r);
  }

  lemma SelectKeepsInv(x: Rules, s: State, r: nat, hit: Option<nat>, now: int)
    requires Inv(x, s) && Enabled(s, SelectCode(r, hit, now))
    ensures Inv(x, Do(x, s, SelectCode(r, hit, now)))
  {
    var t := Do(x, s, SelectCode(r, hit, now));
    assert RedeemerInv(s, r, s.redeemers[r]);
    assert AppKnown(s, s.redeemers[r].app) ==> AppKnown(t, s.redeemers[r].app);
    RedeemerStep(x, s, t, r);
  }

  lemma DeleteKeepsInv(x: Rules, s: State, r: nat)
    requires Inv(x, s) && r in s.redeemers && s.redeemers[r].Selected?
    ensures Inv(x, DoDelete(s, r))
  {
    var t, u := DoDelete(s, r), s.redeemers[r];
    assert RedeemerInv(s, r, u);
    assert AppKnown(s, u.app) ==> AppKnown(t, u.app);
    if u.codeId in s.codes {
      forall q | q != r ensures Taken(s, q) != Some(u.codeId) {
        if q in s.redeemers { assert RedeemerInv(s, q, s.redeemers[q]); }
      }
    }
    RedeemerStep(x, s, t, r);
  }

  lemma PurgeKeepsInv(x: Rules, s: State, r: nat)
    requires Inv(x, s) && r in s.redeemers && s.redeemers[r].Purging?
    ensures Inv(x, Do(x, s, DeleteExpired(r)))
  {
    RedeemerStep(x, s, Do(x, s, DeleteExpired(r)), r);
  }

  lemma MintKeepsInv(x: Rules, s: State, r: nat, tokenId: nat)
    requires Inv(x, s) && r in s.redeemers && s.redeemers[r].Consumed? && tokenId !in s.tokens
    ensures Inv(x, DoMint(x, s, r, tokenId))
  {
    var t, u := DoMint(x, s, r, tokenId), s.redeemers[r];
    assert RedeemerInv(s, r, u) && Taken(s, r) == Some(u.codeId);
    if t.redeemers[r].Refused? {
      RedeemerStep(x, s, t, r);
    } else {
      var mid := t.(tokens := s.tokens);
      assert forall id :: id in t.issued ==> CodeWithinApp(x, s, s.issued[id]);
      forall id | id in t.issued ensures CodeWithinApp(x, t, t.issued[id]) { assert CodeWithinApp(x, s, s.issued[id]); }
      MintKeepsRedeemers(x, s, t, r, tokenId);
      MintKeepsTokens(x, s, t, r, tokenId);
    }
  }

  lemma MintKeepsRedeemers(x: Rules, s: State, t: State, r: nat, tokenId: nat)
    requires Inv(x, s) && r in s.redeemers && s.redeemers[r].Consumed? && tokenId !in s.tokens
    requires t == DoMint(x, s, r, tokenId) && t.redeemers[r].Issued?
    ensures RedeemersInv(t)
  {
    var u := s.redeemers[r];
    assert RedeemerInv(s, r, u) && Taken(s, r) == Some(u.codeId) == Taken(t, r);
    forall q | q != r ensures Taken(t, q) == Taken(s, q) {}
    forall q | q in t.redeemers ensures RedeemerInv(t, q, t.redeemers[q]) {
      if q != r {
        assert RedeemerInv(s, q, s.redeemers[q]);
        assert forall app :: AppKnown(s, app) ==> AppKnown(t, app);
      }
    }
  }

  lemma MintKeepsTokens(x: Rules, s: State, t: State, r: nat, tokenId: nat)
    requires Inv(x, s) && r in s.redeemers && s.redeemers[r].Consumed? && tokenId !in s.tokens
    requires t == DoMint(x, s, r, tokenId) && t.redeemers[r].Issued?
    ensures TokensInv(x, t)
  {
    var u := s.redeemers[r];
    assert RedeemerInv(s, r, u);
    forall k | k in t.tokens
      ensures TokenWithinApp(x, t, t.tokens[k]) && (t.tokens[k].grant == AuthorizationCode ==> FromCode(x, t, k))
    {
      if k == tokenId {
        var a :| a in s.apps && s.apps[a] == u.app;
        assert t.apps[a].id == t.tokens[k].appId && x.within(t.tokens[k].scopes, t.apps[a].scopes);
      } else {
        assert TokenWithinApp(x, s, s.tokens[k]) && (s.tokens[k].grant == AuthorizationCode ==> FromCode(x, s, k));
      }
    }
  }

  lemma ClientTokenKeepsInv(x: Rules, s: State, req: TokenRequest, tokenId: nat)
    requires Sound(x) && Inv(x, s) && tokenId !in s.tokens
    ensures Inv(x, DoClientToken(x, s, req, tokenId))
  {
    var t := DoClientToken(x, s, req, tokenId);
    forall id | id in t.issued ensures CodeWithinApp(x, t, t.issued[id]) { assert CodeWithinApp(x, s, s.issued[id]); }
    ClientTokenKeepsRedeemers(x, s, req, tokenId);
    forall k | k in t.tokens
      ensures TokenWithinApp(x, t, t.tokens[k]) && (t.tokens[k].grant == AuthorizationCode ==> FromCode(x, t, k))
    {
      if k in s.tokens {
        assert TokenWithinApp(x, s, s.tokens[k]) && (s.tokens[k].grant == AuthorizationCode ==> FromCode(x, s, k));
      } else {
        ClientTokenWithinApp(x, s, req, tokenId);
      }
    }
  }

  lemma ClientTokenKeepsRedeemers(x: Rules, s: State, req: TokenRequest, tokenId: nat)
    requires RedeemersInv(s) && tokenId !in s.tokens
    ensures RedeemersInv(DoClientToken(x, s, req, tokenId))
  {
    var t := DoClientToken(x, s, req, tokenId);
    forall r ensures Taken(t, r) == Taken(s, r) {}
    forall q | q in t.redeemers ensures RedeemerInv(t, q, t.redeemers[q]) {
      assert RedeemerInv(s, q, s.redeemers[q]);
      assert forall app :: AppKnown(s, app) ==> AppKnown(t, app);
    }
  }

  lemma ClientTokenWithinApp(x: Rules, s: State, req: TokenRequest, tokenId: nat)
    requires Sound(x) && tokenId !in s.tokens && tokenId in DoClientToken(x, s, req, tokenId).tokens
    ensures var t := DoClientToken(x, s, req, tokenId);
      TokenWithinApp(x, t, t.tokens[tokenId]) && t.tokens[tokenId].grant != AuthorizationCode
  {
    var app := x.authenticate(s.apps, req).value;
    var a :| a in s.apps && s.apps[a] == app;
    var t := DoClientToken(x, s, req, tokenId);
    assert t.apps[a].id == t.tokens[tokenId].appId && x.within(t.tokens[tokenId].scopes, t.apps[a].scopes);
  }

  lemma StepKeepsInv(x: Rules, s: State, step: Step)
    requires Sound(x) && Enabled(s, step) && Inv(x, s)
    ensures Inv(x, Do(x, s, step))
  {
    match step
    case Authorize(req, id, text, now) => AuthorizeKeepsInv(x, s, req, id, text, now);
    case Ask(r, req) => AskKeepsInv(x, s, r, req);
    case SelectCode(r, hit, now) => SelectKeepsInv(x, s, r, hit, now);
    case DeleteExpired(r) => PurgeKeepsInv(x, s, r);
    case DeleteCode(r) => DeleteKeepsInv(x, s, r);
    case Mint(r, tokenId) => MintKeepsInv(x, s, r, tokenId);
    case ClientToken(req, tokenId) => ClientTokenKeepsInv(x, s, req, tokenId);
  }

  lemma {:induction false} RunKeepsInv(x: Rules, s: State, steps: seq<Step>)
    requires Sound(x) && Inv(x, s)
    ensures Inv(x, Run(x, s, steps))
    decreases |steps|
  {
    if steps != [] {
      if Enabled(s, steps[0]) {
        StepKeepsInv(x, s, steps[0]);
        RunKeepsInv(x, Do(x, s, steps[0]), steps[1..]);
      } else {
        RunKeepsInv(x, s, steps[1..]);
      }
    }
  }

  /** A code that was issued and whose row is gone. */
  predicate Spent(s: State, id: nat) {
    id in s.issued && id !in s.codes
  }

  lemma TakenIsSpent(s: State, r: nat)
    requires RedeemersInv(s) && Taken(s, r).Some?
    ensures Spent(s, Taken(s, r).value)
  {
    assert RedeemerInv(s, r, s.redeemers[r]);
  }

  /** A spent code stays spent, and no step lets another request take it. */
  lemma StepKeepsSpent(x: Rules, s: State, step: Step, id: nat, r: nat)
    requires Enabled(s, step) && Spent(s, id)
    ensures Spent(Do(x, s, step), id) && Do(x, s, step).issued[id] == s.issued[id]
    ensures Taken(Do(x, s, step), r) == Some(id) ==> Taken(s, r) == Some(id)
  {
  }

  lemma {:induction false} RunKeepsSpent(x: Rules, s: State, steps: seq<Step>, id: nat, r: nat)
    requires Spent(s, id)
    ensures Spent(Run(x, s, steps), id) && Run(x, s, steps).issued[id] == s.issued[id]
    ensures Taken(Run(x, s, steps), r) == Some(id) ==> Taken(s, r) == Some(id)
    decreases |steps|
  {
    if steps != [] {
      if Enabled(s, steps[0]) {
        StepKeepsSpent(x, s, steps[0], id, r);
        RunKeepsSpent(x, Do(x, s, steps[0]), steps[1..], id, r);
      } else {
        RunKeepsSpent(x, s, steps[1..], id, r);
      }
    }
  }

  /** Single use: under any interleaving of the SELECTs and DELETEs, once a request has taken a code,
      no other request takes one with that text at any later time, whether the first was given its
      token or refused it afterwards; and the code stays gone. */
  lemma CodeTakenOnce(x: Rules, s: State, first: seq<Step>, later: seq<Step>, q: nat, r: nat)
    requires Sound(x) && Inv(x, s) && q != r
    requires Taken(Run(x, s, first), q).Some? && Taken(Run(x, Run(x, s, first), later), r).Some?
    ensures var (a, b) := (Taken(Run(x, s, first), q).value, Taken(Run(x, Run(x, s, first), later), r).value);
      var u := Run(x, Run(x, s, first), later);
      a in u.issued && b in u.issued && u.issued[a].text != u.issued[b].text && a !in u.codes && b !in u.codes
  {
    var t := Run(x, s, first);
    var u := Run(x, t, later);
    RunKeepsInv(x, s, first);
    RunKeepsInv(x, t, later);
    TakenIsSpent(t, q);
    TakenIsSpent(u, r);
    RunKeepsSpent(x, t, later, Taken(t, q).value, r);
  }

  /** The code a token was minted from. */
  function CodeOf(x: Rules, s: State, t: nat): nat
    requires t in s.tokens && FromCode(x, s, t)
  {
    s.redeemers[s.tokens[t].redeemer].codeId
  }

  /** Over every run, authorization-code tokens map one-to-one to consumed codes of their own app, and
      a token's scopes lie within its code's and its app's. */
  lemma TokensComeFromDistinctCodes(s: State, steps: seq<Step>, a: nat, b: nat)
    requires Inv(RULES, s)
    requires var t := Run(RULES, s, steps);
      && a in t.tokens && t.tokens[a].grant == AuthorizationCode
      && b in t.tokens && t.tokens[b].grant == AuthorizationCode
    ensures var t := Run(RULES, s, steps);
      && FromCode(RULES, t, a) && FromCode(RULES, t, b)
      && (CodeOf(RULES, t, a) == CodeOf(RULES, t, b) ==> a == b)
      && CodeOf(RULES, t, a) !in t.codes
      && t.issued[CodeOf(RULES, t, a)].appId == t.tokens[a].appId
      && ScopesAreSubset(t.tokens[a].scopes, t.issued[CodeOf(RULES, t, a)].scopes)
      && (exists c :: c in t.apps && t.apps[c].id == t.tokens[a].appId
                      && ScopesAreSubset(t.tokens[a].scopes, t.apps[c].scopes))
  {
    RulesAreSound();
    RunKeepsInv(RULES, s, steps);
    var t := Run(RULES, s, steps);
    TokenOrigins(RULES, t, a, b);
    assert RULES.within(t.tokens[a].scopes, t.issued[CodeOf(RULES, t, a)].scopes);
    var c :| c in t.apps && t.apps[c].id == t.tokens[a].appId && RULES.within(t.tokens[a].scopes, t.apps[c].scopes);
    assert ScopesAreSubset(t.tokens[a].scopes, t.apps[c].scopes);
  }

  lemma TokenOrigins(x: Rules, t: State, a: nat, b: nat)
    requires Inv(x, t)
    requires a in t.tokens && t.tokens[a].grant == AuthorizationCode
    requires b in t.tokens && t.tokens[b].grant == AuthorizationCode
    ensures FromCode(x, t, a) && FromCode(x, t, b) && TokenWithinApp(x, t, t.tokens[a])
    ensures CodeOf(x, t, a) == CodeOf(x, t, b) ==> a == b
    ensures CodeOf(x, t, a) !in t.codes
  {
    assert FromCode(x, t, a) && FromCode(x, t, b);
    var q, r := t.tokens[a].redeemer, t.tokens[b].redeemer;
    assert RedeemerInv(t, q, t.redeemers[q]);
    assert Taken(t, q) == Some(CodeOf(x, t, a)) && Taken(t, r) == Some(CodeOf(x, t, b));
  }

  // ---------------------------------------------------------------------------
  // No token without the client secret
  // ---------------------------------------------------------------------------

  /** The request names a registered client, with its secret. */
  predicate KnowsSecret(apps: map<string, App>, req: TokenRequest, appId: nat) {
    req.clientId in apps && apps[req.clientId].id == appId && apps[req.clientId].clientSecret == req.clientSecret
  }

  ghost predicate AskedWithSecret(apps: map<string, App>, steps: seq<Step>, r: nat, appId: nat) {
    exists i :: 0 <= i < |steps| && steps[i].Ask? && steps[i].r == r && KnowsSecret(apps, steps[i].tokenReq, appId)
  }

  ghost predicate ClientWithSecret(apps: map<string, App>, steps: seq<Step>, appId: nat) {
    exists i :: 0 <= i < |steps| && steps[i].ClientToken? && KnowsSecret(apps, steps[i].tokenReq, appId)
  }

  ghost predicate TokenHasSecret(apps: map<string, App>, steps: seq<Step>, t: Token) {
    match t.grant
    case ClientCredentials => ClientWithSecret(apps, steps, t.appId)
    case AuthorizationCode => AskedWithSecret(apps, steps, t.redeemer, t.appId)
  }

  /** The app a request acts for. */
  function ActsFor(u: Redeemer): Option<App> {
    match u
    case Asked(app, _, _, _) => Some(app)
    case Selected(_, _, app, _) => Some(app)
    case Consumed(_, _, app, _) => Some(app)
    case _ => None
  }

  /** After `steps` every request under way, and every token, goes back to a request with the secret. */
  ghost predicate Vouched(apps: map<string, App>, s: State, steps: seq<Step>) {
    && s.apps == apps
    && (forall r :: r in s.redeemers && ActsFor(s.redeemers[r]).Some? ==>
          AskedWithSecret(apps, steps, r, ActsFor(s.redeemers[r]).value.id))
    && (forall k :: k in s.tokens ==> TokenHasSecret(apps, steps, s.tokens[k]))
  }

  lemma LongerVouches(apps: map<string, App>, steps: seq<Step>, step: Step, r: nat, appId: nat)
    ensures AskedWithSecret(apps, steps, r, appId) ==> AskedWithSecret(apps, steps + [step], r, appId)
    ensures ClientWithSecret(apps, steps, appId) ==> ClientWithSecret(apps, steps + [step], appId)
  {
    var more := steps + [step];
    if AskedWithSecret(apps, steps, r, appId) {
      var i :| 0 <= i < |steps| && steps[i].Ask? && steps[i].r == r && KnowsSecret(apps, steps[i].tokenReq, appId);
      assert more[i] == steps[i];
    }
    if ClientWithSecret(apps, steps, appId) {
      var i :| 0 <= i < |steps| && steps[i].ClientToken? && KnowsSecret(apps, steps[i].tokenReq, appId);
      assert more[i] == steps[i];
    }
  }

  lemma LongerKeepsVouched(apps: map<string, App>, s: State, steps: seq<Step>, step: Step)
    requires Vouched(apps, s, steps)
    ensures Vouched(apps, s, steps + [step])
  {
    forall r | r in s.redeemers && ActsFor(s.redeemers[r]).Some?
      ensures AskedWithSecret(apps, steps + [step], r, ActsFor(s.redeemers[r]).value.id)
    {
      LongerVouches(apps, steps, step, r, ActsFor(s.redeemers[r]).value.id);
    }
    forall k | k in s.tokens ensures TokenHasSecret(apps, steps + [step], s.tokens[k]) {
      LongerVouches(apps, steps, step, s.tokens[k].redeemer, s.tokens[k].appId);
    }
  }

  lemma StepKeepsVouched(s: State, steps: seq<Step>, step: Step)
    requires Enabled(s, step) && Vouched(s.apps, s, steps)
    ensures Vouched(s.apps, Do(RULES, s, step), steps + [step])
  {
    var more := steps + [step];
    LongerKeepsVouched(s.apps, s, steps, step);
    assert more[|steps|] == step;
    if step.Ask? {
      AskVouches(s, steps, step.r, step.tokenReq);
    } else if step.ClientToken? {
      ClientTokenVouches(s, steps, step.tokenReq, step.tokenId);
    } else if step.Mint? {
      MintVouches(s, more, step.r, step.tokenId);
    }
  }

  lemma MintVouches(s: State, steps: seq<Step>, r: nat, tokenId: nat)
    requires Enabled(s, Mint(r, tokenId)) && Vouched(s.apps, s, steps)
    ensures Vouched(s.apps, DoMint(RULES, s, r, tokenId), steps)
  {
    assert AskedWithSecret(s.apps, steps, r, s.redeemers[r].app.id);
  }

  lemma AskVouches(s: State, steps: seq<Step>, r: nat, req: TokenRequest)
    requires Vouched(s.apps, s, steps + [Ask(r, req)]) && r !in s.redeemers
    ensures Vouched(s.apps, DoAsk(RULES, s, r, req), steps + [Ask(r, req)])
  {
    var more := steps + [Ask(r, req)];
    assert more[|steps|] == Ask(r, req);
    if RULES.authenticate(s.apps, req).Ok? {
      assert KnowsSecret(s.apps, more[|steps|].tokenReq, RULES.authenticate(s.apps, req).value.id);
    }
  }

  lemma ClientTokenVouches(s: State, steps: seq<Step>, req: TokenRequest, tokenId: nat)
    requires Vouched(s.apps, s, steps + [ClientToken(req, tokenId)]) && tokenId !in s.tokens
    ensures Vouched(s.apps, DoClientToken(RULES, s, req, tokenId), steps + [ClientToken(req, tokenId)])
  {
    var more := steps + [ClientToken(req, tokenId)];
    assert more[|steps|] == ClientToken(req, tokenId);
    if RULES.authenticate(s.apps, req).Ok? {
      assert KnowsSecret(s.apps, more[|steps|].tokenReq, RULES.authenticate(s.apps, req).value.id);
    }
  }

  lemma {:induction false} RunKeepsVouched(s: State, before: seq<Step>, steps: seq<Step>)
    requires Vouched(s.apps, s, before)
    ensures Vouched(s.apps, Run(RULES, s, steps), before + steps)
    decreases |steps|
  {
    if steps == [] {
      assert before + steps == before;
    } else {
      assert before + steps == (before + [steps[0]]) + steps[1..];
      if Enabled(s, steps[0]) {
        StepKeepsVouched(s, before, steps[0]);
        RunKeepsVouched(Do(RULES, s, steps[0]), before + [steps[0]], steps[1..]);
      } else {
        LongerKeepsVouched(s.apps, s, before, steps[0]);
        RunKeepsVouched(s, before + [steps[0]], steps[1..]);
      }
    }
  }

  /** Over every run, a token was asked for by a request that named a registered client and its secret,
      and is that client's: for an authorization-code token, the request that redeemed the code. */
  lemma TokensNeedTheSecret(s: State, steps: seq<Step>, k: nat)
    requires s.tokens == map[] && s.redeemers == map[] && k in Run(RULES, s, steps).tokens
    ensures var t := Run(RULES, s, steps).tokens[k];
      exists i :: 0 <= i < |steps| &&
        ((t.grant == ClientCredentials && steps[i].ClientToken?) ||
         (t.grant == AuthorizationCode && steps[i].Ask? && steps[i].r == t.redeemer)) &&
        steps[i].tokenReq.clientId in s.apps && s.apps[steps[i].tokenReq.clientId].id == t.appId &&
        s.apps[steps[i].tokenReq.clientId].clientSecret == steps[i].tokenReq.clientSecret
  {
    RunKeepsVouched(s, [], steps);
    assert [] + steps == steps;
    var t := Run(RULES, s, steps).tokens[k];
    assert TokenHasSecret(s.apps, steps, t);
  }

  // ---------------------------------------------------------------------------
  // A redemption that is in order
  // ---------------------------------------------------------------------------

  /** The steps of one token request. */
  function Redemption(r: nat, req: TokenRequest, id: nat, now: int, tokenId: nat): seq<Step> {
    [Ask(r, req), SelectCode(r, Some(id), now), DeleteCode(r), Mint(r, tokenId)]
  }

  /** A request in order for a code still stored: the client with its secret, the code and redirect URI
      it was issued for, in time. */
  predicate InOrder(s: State, req: TokenRequest, id: nat, now: int) {
    && id in s.codes && KnowsSecret(s.apps, req, s.codes[id].appId)
    && Present(req.code) == Some(s.codes[id].text) && Present(req.redirectUri) == Some(s.codes[id].redirectUri)
    && now < s.codes[id].expiresAt
  }

  lemma AskAndSelect(s: State, r: nat, req: TokenRequest, id: nat, now: int)
    requires InOrder(s, req, id, now) && r !in s.redeemers
    ensures var a := Do(RULES, s, Ask(r, req));
      && Enabled(a, SelectCode(r, Some(id), now))
      && Do(RULES, a, SelectCode(r, Some(id), now)) == Set(s, r, Selected(id, s.codes[id], s.apps[req.clientId], req.scope))
  {
    var a := Do(RULES, s, Ask(r, req));
    assert a.redeemers[r] == Asked(s.apps[req.clientId], s.codes[id].text, s.codes[id].redirectUri, req.scope);
    assert a.codes == s.codes;
  }

  lemma DeleteAndMint(s: State, r: nat, id: nat, app: App, scope: Option<string>, tokenId: nat)
    requires id in s.codes && tokenId !in s.tokens
    requires var want := if scope.Some? && ScopeSet(scope.value) != {} then ScopeSet(scope.value) else ScopeSet(s.codes[id].scopes);
      want <= ScopeSet(s.codes[id].scopes) && want <= ScopeSet(app.scopes)
    ensures var c := Do(RULES, Set(s, r, Selected(id, s.codes[id], app, scope)), DeleteCode(r));
      && Enabled(c, Mint(r, tokenId))
      && var u := Do(RULES, c, Mint(r, tokenId));
         u.codes == s.codes - {id} && u.redeemers[r] == Issued(id, tokenId)
         && u.tokens == s.tokens[tokenId := Token(app.id, AuthorizationCode, RequestedScopes(scope, s.codes[id].scopes), r)]
  {
    RequestedIs(scope, s.codes[id].scopes);
    var b := Set(s, r, Selected(id, s.codes[id], app, scope));
    var c := Do(RULES, b, DeleteCode(r));
    assert c.redeemers[r] == Consumed(id, s.codes[id], app, scope);
    assert RULES.requested(scope, s.codes[id].scopes) == RequestedScopes(scope, s.codes[id].scopes);
  }

  /** A request in order is given its token: for the code's app, with exactly the scopes it asked for,
      or the code's when it named none, provided code and app allow them. */
  lemma OrderlyRequestIsServed(s: State, r: nat, req: TokenRequest, id: nat, now: int, tokenId: nat)
    requires InOrder(s, req, id, now) && r !in s.redeemers && tokenId !in s.tokens
    requires var want := if req.scope.Some? && ScopeSet(req.scope.value) != {} then ScopeSet(req.scope.value) else ScopeSet(s.codes[id].scopes);
      want <= ScopeSet(s.codes[id].scopes) && want <= ScopeSet(s.apps[req.clientId].scopes)
    ensures var u := Run(RULES, s, Redemption(r, req, id, now, tokenId));
      && tokenId in u.tokens && u.tokens[tokenId].appId == s.codes[id].appId && u.tokens[tokenId].redeemer == r
      && u.tokens[tokenId].grant == AuthorizationCode && id !in u.codes
      && ScopeSet(u.tokens[tokenId].scopes) ==
           if req.scope.Some? && ScopeSet(req.scope.value) != {} then ScopeSet(req.scope.value) else ScopeSet(s.codes[id].scopes)
  {
    var app := s.apps[req.clientId];
    AskAndSelect(s, r, req, id, now);
    DeleteAndMint(s, r, id, app, req.scope, tokenId);
    RequestedIs(req.scope, s.codes[id].scopes);
    var a := Do(RULES, s, Ask(r, req));
    var b := Do(RULES, a, SelectCode(r, Some(id), now));
    var c := Do(RULES, b, DeleteCode(r));
    var u := Do(RULES, c, Mint(r, tokenId));
    RunFour(s, a, b, c, u, r, req, id, now, tokenId);
  }

  lemma RunFour(s: State, a: State, b: State, c: State, u: State, r: nat, req: TokenRequest, id: nat, now: int, tokenId: nat)
    requires Enabled(s, Ask(r, req)) && a == Do(RULES, s, Ask(r, req))
    requires Enabled(a, SelectCode(r, Some(id), now)) && b == Do(RULES, a, SelectCode(r, Some(id), now))
    requires Enabled(b, DeleteCode(r)) && c == Do(RULES, b, DeleteCode(r))
    requires Enabled(c, Mint(r, tokenId)) && u == Do(RULES, c, Mint(r, tokenId))
    ensures Run(RULES, s, Redemption(r, req, id, now, tokenId)) == u
  {
    var steps := Redemption(r, req, id, now, tokenId);
    RunCons(s, steps);
    RunCons(a, steps[1..]);
    RunCons(b, steps[2..]);
    RunCons(c, steps[3..]);
    assert steps[1..][1..] == steps[2..] && steps[2..][1..] == steps[3..] && steps[3..][1..] == [];
  }

  lemma RunCons(s: State, steps: seq<Step>)
    requires steps != [] && Enabled(s, steps[0])
    ensures Run(RULES, s, steps) == Run(RULES, Do(RULES, s, steps[0]), steps[1..])
  {
  }

  /** The two requests together: a code granted to a client for scopes of its app is traded within ten
      minutes, by the same client at the same redirect URI, for a token with just those scopes. */
  lemma GrantIsRedeemable(s: State, client: string, app: App, uri: string, scope: Option<string>, id: nat,
                          text: string, issued: int, r: nat, req: TokenRequest, now: int, tokenId: nat)
    requires Text.Trim(client) != "" && Text.Trim(client) in s.apps && s.apps[Text.Trim(client)] == app
    requires Text.Trim(uri) in Text.Words(app.redirectUris)
    requires scope.Some? ==> ScopeSet(scope.value) <= ScopeSet(app.scopes)
    requires Enabled(s, Authorize(AuthorizeRequest(Some("code"), Some(client), Some(uri), scope), id, text, issued))
    requires r !in s.redeemers && tokenId !in s.tokens && now < issued + 600
    requires req.clientId == Text.Trim(client) && req.clientSecret == app.clientSecret && req.scope == None
    requires Present(req.code) == Some(text) && Present(req.redirectUri) == Some(Text.Trim(uri))
    ensures var grant := Authorize(AuthorizeRequest(Some("code"), Some(client), Some(uri), scope), id, text, issued);
      var u := Run(RULES, s, [grant] + Redemption(r, req, id, now, tokenId));
      && tokenId in u.tokens && u.tokens[tokenId].appId == app.id && id !in u.codes
      && ScopeSet(u.tokens[tokenId].scopes) ==
           if scope.Some? && ScopeSet(scope.value) != {} then ScopeSet(scope.value) else ScopeSet(app.scopes)
  {
    var asked := AuthorizeRequest(Some("code"), Some(client), Some(uri), scope);
    var grant := Authorize(asked, id, text, issued);
    ValidRequestIsAccepted(s.apps, client, uri, scope);
    var t := Do(RULES, s, grant);
    assert RULES.validate(s.apps, asked) == ValidateAuthorize(s.apps, asked);
    var row := Code(app.id, text, Text.Trim(uri), ValidateAuthorize(s.apps, asked).value.2, issued + 600);
    assert t == s.(codes := s.codes[id := row], issued := s.issued[id := row]);
    OrderlyRequestIsServed(t, r, req, id, now, tokenId);
    RunCons(s, [grant] + Redemption(r, req, id, now, tokenId));
    assert ([grant] + Redemption(r, req, id, now, tokenId))[1..] == Redemption(r, req, id, now, tokenId);
  }

  /** A code is good for ten minutes: selected later, it is purged and the request refused. */
  lemma LateRequestIsRefused(s: State, req: AuthorizeRequest, id: nat, text: string, issued: int, r: nat, now: int)
    requires Enabled(s, Authorize(req, id, text, issued)) && RULES.validate(s.apps, req).Ok? && now >= issued + 600
    requires var t := Do(RULES, s, Authorize(req, id, text, issued)); Enabled(t, SelectCode(r, Some(id), now))
    ensures var t := Do(RULES, s, Authorize(req, id, text, issued));
      var u := Do(RULES, t, SelectCode(r, Some(id), now));
      u.redeemers[r] == Purging(id) && id !in Do(RULES, u, DeleteExpired(r)).codes
      && Do(RULES, u, DeleteExpired(r)).redeemers[r] == Refused(Unauthorized)
  {
  }

  // ---------------------------------------------------------------------------
  // One redemption as a program
  // ---------------------------------------------------------------------------

  predicate By(step: Step, r: nat) {
    !step.Authorize? && !step.ClientToken? && step.r == r
  }

  lemma {:induction false} OthersLeaveRedeemer(x: Rules, s: State, steps: seq<Step>, r: nat)
    requires r in s.redeemers && forall i :: 0 <= i < |steps| ==> !By(steps[i], r)
    ensures r in Run(x, s, steps).redeemers && Run(x, s, steps).redeemers[r] == s.redeemers[r]
    decreases |steps|
  {
    if steps != [] {
      assert !By(steps[0], r);
      OthersLeaveRedeemer(x, if Enabled(s, steps[0]) then Do(x, s, steps[0]) else s, steps[1..], r);
    }
  }

  class Server {
    const rules: Rules
    var s: State

    /** Other requests run while this one awaits. */
    method Await(r: nat, others: seq<Step>)
      requires Sound(rules) && Inv(rules, s) && r in s.redeemers && forall i :: 0 <= i < |others| ==> !By(others[i], r)
      modifies this
      ensures s == Run(rules, old(s), others) && Inv(rules, s)
      ensures r in s.redeemers && s.redeemers[r] == old(s).redeemers[r]
    {
      RunKeepsInv(rules, s, others);
      OthersLeaveRedeemer(rules, s, others, r);
      s := Run(rules, s, others);
    }

    /** SELECT * FROM oauth_authorization_codes WHERE code = ?, and what the caller makes of it. */
    method Select(r: nat, now: int) returns (hit: Option<nat>)
      requires Inv(rules, s) && r in s.redeemers && s.redeemers[r].Asked?
      modifies this
      ensures Enabled(old(s), SelectCode(r, hit, now)) && s == Do(rules, old(s), SelectCode(r, hit, now))
      ensures Inv(rules, s)
    {
      var u := s.redeemers[r];
      var hits := set id | id in s.codes && s.codes[id].text == u.code;
      if hits == {} {
        assert forall id :: id in s.codes && s.codes[id].text == u.code ==> id in hits;
        hit := None;
      } else {
        var id :| id in hits;
        hit := Some(id);
      }
      SelectKeepsInv(rules, s, r, hit, now);
      s := Set(s, r, if hit.None? then Refused(Unauthorized) else Decide(u, hit.value, s.codes[hit.value], now));
    }

    /** DELETE FROM oauth_authorization_codes WHERE id = ? for an expired code. */
    method Purge(r: nat)
      requires Inv(rules, s) && r in s.redeemers && s.redeemers[r].Purging?
      modifies this
      ensures s == Do(rules, old(s), DeleteExpired(r)) && Inv(rules, s)
    {
      PurgeKeepsInv(rules, s, r);
      s := Set(s.(codes := s.codes - {s.redeemers[r].codeId}), r, Refused(Unauthorized));
    }

    /** The same DELETE for the code being redeemed; the number of affected rows decides. */
    method Take(r: nat) returns (affected: bool)
      requires Inv(rules, s) && r in s.redeemers && s.redeemers[r].Selected?
      modifies this
      ensures s == Do(rules, old(s), DeleteCode(r)) && Inv(rules, s)
      ensures affected == (old(s).redeemers[r].codeId in old(s).codes)
    {
      DeleteKeepsInv(rules, s, r);
      var u := s.redeemers[r];
      affected := u.codeId in s.codes;
      if affected {
        s := Set(s.(codes := s.codes - {u.codeId}), r, Consumed(u.codeId, u.row, u.app, u.scope));
      } else {
        s := Set(s, r, Refused(Unauthorized));
      }
    }

    /** `consume_oauth_authorization_code`, with other requests running between its SELECT and its
        DELETE: a row is returned exactly when this very call deleted it, and then it had been issued
        to the same app and redirect URI and had not expired. */
    method Consume(r: nat, now: int, others: seq<Step>) returns (taken: Option<Code>)
      requires Sound(rules) && Inv(rules, s) && r in s.redeemers && s.redeemers[r].Asked?
      requires forall i :: 0 <= i < |others| ==> !By(others[i], r)
      modifies this
      ensures Inv(rules, s) && r in s.redeemers
      ensures taken.Some? <==> s.redeemers[r].Consumed?
      ensures taken.None? ==> s.redeemers[r] == Refused(Unauthorized)
      ensures taken.Some? ==>
        && s.redeemers[r].row == taken.value
        && taken.value.appId == old(s).redeemers[r].app.id
        && taken.value.redirectUri == old(s).redeemers[r].redirectUri && taken.value.expiresAt > now
    {
      var hit := Select(r, now);
      if s.redeemers[r].Refused? {
        return None;
      }
      taken := Settle(r, others);
    }

    method Settle(r: nat, others: seq<Step>) returns (taken: Option<Code>)
      requires Sound(rules) && Inv(rules, s) && r in s.redeemers && (s.redeemers[r].Selected? || s.redeemers[r].Purging?)
      requires forall i :: 0 <= i < |others| ==> !By(others[i], r)
      modifies this
      ensures Inv(rules, s) && r in s.redeemers
      ensures taken.None? ==> s.redeemers[r] == Refused(Unauthorized)
      ensures taken.Some? ==> old(s).redeemers[r].Selected? && taken == Some(old(s).redeemers[r].row)
      ensures taken.Some? ==> s.redeemers[r].Consumed? && taken == Some(s.redeemers[r].row)
    {
      Await(r, others);
      if s.redeemers[r].Purging? {
        Purge(r);
        return None;
      }
      var row := s.redeemers[r].row;
      var affected := Take(r);
      taken := if affected then Some(row) else None;
    }
  }
}
