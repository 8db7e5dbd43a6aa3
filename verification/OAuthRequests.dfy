/** OAuth requests: which scopes are asked for, whether they are allowed, and which requests are
    turned away before any row is touched. */
module OAuthRequests {
  import opened Wrappers
  import opened Text

  // ---------------------------------------------------------------------------
  // Scopes
  // ---------------------------------------------------------------------------

  function NormalizeScopes(scopes: string): string {
    Join(Words(scopes), ' ')
  }

  function ScopeSet(scopes: string): set<string> {
    set w | w in Words(scopes)
  }

  predicate ScopesAreSubset(requested: string, allowed: string) {
    ScopeSet(requested) <= ScopeSet(allowed)
  }

  /** Normalizing keeps the words in order, so it changes no scope decision and is idempotent. */
  lemma NormalizeKeepsScopes(scopes: string)
    ensures Words(NormalizeScopes(scopes)) == Words(scopes)
    ensures NormalizeScopes(NormalizeScopes(scopes)) == NormalizeScopes(scopes)
    ensures ScopeSet(NormalizeScopes(scopes)) == ScopeSet(scopes)
  {
    WordsAreWords(scopes);
    WordsOfJoin(Words(scopes));
  }

  predicate IsRegisteredRedirectUri(registered: string, uri: string) {
    uri in Words(registered)
  }

  /** The scope a request asks for: its own, normalized, or the default when it names none. */
  function RequestedScopes(scope: Option<string>, fallback: string): string {
    if scope.Some? && NormalizeScopes(scope.value) != "" then NormalizeScopes(scope.value)
    else NormalizeScopes(fallback)
  }

  /** Exactly the scopes asked for, or, when none are, those of the fallback. */
  lemma RequestedIs(scope: Option<string>, fallback: string)
    ensures ScopeSet(RequestedScopes(scope, fallback)) ==
      if scope.Some? && ScopeSet(scope.value) != {} then ScopeSet(scope.value) else ScopeSet(fallback)
  {
    NormalizeKeepsScopes(fallback);
    if scope.Some? {
      NormalizeKeepsScopes(scope.value);
      assert Words("") == [];
      if Words(scope.value) != [] {
        assert Words(scope.value)[0] in ScopeSet(scope.value);
      }
    }
  }

  function Present(field: Option<string>): Option<string> {
    if field.Some? && Trim(field.value) != "" then Some(Trim(field.value)) else None
  }

  // ---------------------------------------------------------------------------
  // Requests
  // ---------------------------------------------------------------------------

  datatype App = App(id: nat, clientSecret: string, redirectUris: string, scopes: string)

  datatype Code = Code(appId: nat, text: string, redirectUri: string, scopes: string, expiresAt: int)

  datatype AuthorizeRequest = AuthorizeRequest(
    responseType: Option<string>, clientId: Option<string>, redirectUri: Option<string>, scope: Option<string>)

  datatype TokenRequest = TokenRequest(
    clientId: string, clientSecret: string, code: Option<string>, redirectUri: Option<string>, scope: Option<string>)

  /** `validate_authorize_request` */
  function ValidateAuthorize(apps: map<string, App>, req: AuthorizeRequest): Result<(App, string, string), AppError> {
    if req.responseType != Some("code") then Err(Validation)
    else if Present(req.clientId).None? || Present(req.redirectUri).None? then Err(Validation)
    else if Present(req.clientId).value !in apps then Err(Unauthorized)
    else
      var app := apps[Present(req.clientId).value];
      var redirect := Present(req.redirectUri).value;
      var requested := RequestedScopes(req.scope, app.scopes);
      if !IsRegisteredRedirectUri(app.redirectUris, redirect) then Err(Validation)
      else if !ScopesAreSubset(requested, app.scopes) then Err(Unauthorized)
      else Ok((app, redirect, requested))
  }

  function AuthenticateClient(apps: map<string, App>, req: TokenRequest): Result<App, AppError> {
    if req.clientId !in apps || apps[req.clientId].clientSecret != req.clientSecret then Err(Unauthorized)
    else Ok(apps[req.clientId])
  }

  /** A request for a code that names a registered client and redirect URI, white space around them
      aside, and scopes of that app, or none, is accepted as it stands. */
  lemma ValidRequestIsAccepted(apps: map<string, App>, client: string, uri: string, scope: Option<string>)
    requires Trim(client) != "" && Trim(client) in apps && Trim(uri) in Words(apps[Trim(client)].redirectUris)
    requires scope.Some? ==> ScopeSet(scope.value) <= ScopeSet(apps[Trim(client)].scopes)
    ensures var r := ValidateAuthorize(apps, AuthorizeRequest(Some("code"), Some(client), Some(uri), scope));
      && r.Ok? && r.value.0 == apps[Trim(client)] && r.value.1 == Trim(uri)
      && ScopeSet(r.value.2) ==
           if scope.Some? && ScopeSet(scope.value) != {} then ScopeSet(scope.value) else ScopeSet(apps[Trim(client)].scopes)
  {
    WordsAreWords(apps[Trim(client)].redirectUris);
    assert IsWord(Trim(uri));
    RequestedIs(scope, apps[Trim(client)].scopes);
  }

  /** A validated request names a registered app and redirect URI and asks for scopes of that app. */
  lemma ValidatedRequestIsSound(apps: map<string, App>, req: AuthorizeRequest)
    requires ValidateAuthorize(apps, req).Ok?
    ensures var (app, redirect, requested) := ValidateAuthorize(apps, req).value;
      && (exists a :: a in apps && apps[a] == app)
      && redirect in Words(app.redirectUris)
      && ScopeSet(requested) <= ScopeSet(app.scopes)
      && (req.scope.Some? && ScopeSet(req.scope.value) != {} ==> ScopeSet(requested) == ScopeSet(req.scope.value))
  {
    var client := Present(req.clientId).value;
    assert client in apps && apps[client] == ValidateAuthorize(apps, req).value.0;
    if req.scope.Some? {
      NormalizeKeepsScopes(req.scope.value);
      if NormalizeScopes(req.scope.value) == "" { assert Words("") == []; }
    }
  }
}
