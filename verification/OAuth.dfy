/**
  * The OAuth authorization-code server in legacy (opaque token) mode as a state machine
  * (simulator/src/oauth/handlers.rs, mod.rs, watcher.rs).
  *
  * A request is a process that advances one lock section or API call at a time, so any number of requests,
  * sweeps, user-store reloads and clock ticks interleave. Random strings are parameters of the actions that
  * draw them; SHA-256 with base64url is the parameter `s256`.
  */
module OAuth {
  import opened Prelude
  import opened UserStore

  const SECOND: nat := 1_000_000_000
  const CODE_TTL: nat := 300 * SECOND
  const TOKEN_TTL: nat := 86_400 * SECOND

  datatype AuthCode = AuthCode(
    username: string, clientId: string, created: nat, challenge: Option<string>, challengeMethod: Option<string>)

  datatype TokenInfo = TokenInfo(username: string, created: nat)

  datatype OAuthClient = OAuthClient(secret: string, redirectUris: seq<string>)

  /** What a code will be issued for once login and client are approved. */
  datatype Grant = Grant(
    username: string, clientId: string, redirectUri: string, challenge: Option<string>, challengeMethod: Option<string>)

  /** Parameters of POST /oauth/authorize; an absent user name or password arrives as the empty string. */
  datatype LoginForm = LoginForm(
    clientId: Option<string>, redirectUri: Option<string>, username: string, password: string,
    challenge: Option<string>, challengeMethod: Option<string>)

  /** The decoded Authorization header of GET /oauth/authorize. */
  datatype BasicHeader = NoBasic | BadBasic | Basic(user: string, password: string)

  datatype LoginQuery = LoginQuery(
    clientId: Option<string>, redirectUri: Option<string>, basic: BasicHeader, csrf: bool,
    challenge: Option<string>, challengeMethod: Option<string>)

  /** Parameters of POST /oauth/token; `basicClientId` is the user part of a decodable Basic header. */
  datatype TokenRequest = TokenRequest(
    grantType: string, code: Option<string>, clientId: Option<string>, basicClientId: Option<string>,
    secret: string, verifier: Option<string>)

  datatype TokenErr = UnsupportedGrantType | InvalidRequest | InvalidGrant | InvalidClient

  datatype Outcome =
    | BadRequest
    | LoginPage
    | Unauthorized
    | Redirected(uri: string, code: string)
    | TokenError(error: TokenErr)
    | TokenGranted(token: string)
    | UserInfo(username: string, email: string, groups: seq<string>)

  /** Where a request stands between two lock sections or API calls. */
  datatype Phase =
    | PasswordAccepted(grant: Grant)                       // POST login: credentials checked, client not yet
    | ClientAccepted(grant: Grant, password: string)       // GET login: client checked, credentials not yet
    | Cleared(grant: Grant)                                // ready to store a code
    | Taken(entry: Option<AuthCode>, req: TokenRequest, at: nat) // code removed from the table (or not found)
    | NeedsClient(auth: AuthCode, req: TokenRequest)       // no challenge: client secret still to be checked
    | Accepted(auth: AuthCode, req: TokenRequest)          // ready to store a token
    | Identified(username: string)                         // userinfo: token resolved, profile not yet
    | Done(outcome: Outcome)

  datatype World = World(
    now: nat,
    codes: map<string, AuthCode>,
    tokens: map<string, TokenInfo>,
    users: seq<UserEntry>,
    clients: map<string, OAuthClient>,
    procs: map<nat, Phase>)

  datatype Action =
    | Tick(elapsed: nat)
    | Reload(htpasswd: string)
    | SetClients(clients: map<string, OAuthClient>)
    | LoginPost(id: nat, form: LoginForm)
    | LookupClient(id: nat)
    | LoginGet(id: nat, query: LoginQuery)
    | CheckBasic(id: nat)
    | IssueCode(id: nat, random: string)
    | TakeCode(id: nat, req: TokenRequest)
    | CheckGrant(id: nat)
    | CheckClient(id: nat)
    | MintToken(id: nat, random: string)
    | LookupToken(id: nat, bearer: Option<string>, jwtUser: Option<string>)
    | FetchProfile(id: nat)
    | SweepCodes
    | SweepTokens

  // ---- the handlers, one section at a time ----

  predicate RedirectAllowed(c: OAuthClient, uri: string) {
    exists i :: 0 <= i < |c.redirectUris| && c.redirectUris[i] <= uri
  }

  predicate ClientAllows(clients: map<string, OAuthClient>, clientId: string, uri: string) {
    clientId in clients && RedirectAllowed(clients[clientId], uri)
  }

  function AfterLoginPost(users: seq<UserEntry>, f: LoginForm): (p: Phase) {
    if f.clientId.None? || f.redirectUri.None? then Done(BadRequest)
    else if f.username == [] || Authenticate(users, f.username, f.password).None? then Done(LoginPage)
    else PasswordAccepted(
           Grant(f.username, f.clientId.value, f.redirectUri.value, f.challenge, f.challengeMethod))
  }

  function AfterLookupClient(clients: map<string, OAuthClient>, g: Grant): (p: Phase) {
    if ClientAllows(clients, g.clientId, g.redirectUri) then Cleared(g) else Done(BadRequest)
  }

  function AfterLoginGet(clients: map<string, OAuthClient>, q: LoginQuery): (p: Phase) {
    if q.clientId.None? || q.redirectUri.None? then Done(BadRequest)
    else if !ClientAllows(clients, q.clientId.value, q.redirectUri.value) then Done(BadRequest)
    else match q.basic
      case Basic(user, password) =>
        ClientAccepted(Grant(user, q.clientId.value, q.redirectUri.value, q.challenge, q.challengeMethod), password)
      case BadBasic => Done(Unauthorized)
      case NoBasic => Done(if q.csrf then Unauthorized else LoginPage)
  }

  function AfterCheckBasic(users: seq<UserEntry>, g: Grant, password: string): (p: Phase) {
    if Authenticate(users, g.username, password).Some? then Cleared(g) else Done(Unauthorized)
  }

  function ClientOf(req: TokenRequest): (r: Option<string>) {
    if req.clientId.Some? then req.clientId else req.basicClientId
  }

  /** The request reaches the code table at all. */
  predicate WellShaped(req: TokenRequest) {
    req.grantType == "authorization_code" && req.code.Some? && ClientOf(req).Some?
  }

  function AfterTakeCode(codes: map<string, AuthCode>, now: nat, req: TokenRequest): (p: Phase) {
    if req.grantType != "authorization_code" then Done(TokenError(UnsupportedGrantType))
    else if !WellShaped(req) then Done(TokenError(InvalidRequest))
    else Taken(if req.code.value in codes then Some(codes[req.code.value]) else None, req, now)
  }

  predicate VerifyPkce(s256: string -> string, verifier: string, challenge: string, pkceMethod: string) {
    if pkceMethod == "S256" then s256(verifier) == challenge
    else pkceMethod == "plain" && verifier == challenge
  }

  function AfterCheckGrant(s256: string -> string, now: nat, entry: Option<AuthCode>, req: TokenRequest): (p: Phase) {
    match entry
    case None => Done(TokenError(InvalidGrant))
    case Some(auth) =>
      if now - auth.created > CODE_TTL then Done(TokenError(InvalidGrant))
      else if ClientOf(req) != Some(auth.clientId) then Done(TokenError(InvalidGrant))
      else match auth.challenge
        case None => NeedsClient(auth, req)
        case Some(challenge) =>
          match req.verifier
          case None => Done(TokenError(InvalidRequest))
          case Some(verifier) =>
            if VerifyPkce(s256, verifier, challenge, auth.challengeMethod.GetOr("S256")) then Accepted(auth, req)
            else Done(TokenError(InvalidGrant))
  }

  predicate SecretAccepted(clients: map<string, OAuthClient>, clientId: string, secret: string) {
    clientId in clients && (clients[clientId].secret == [] || clients[clientId].secret == secret)
  }

  function AfterCheckClient(clients: map<string, OAuthClient>, auth: AuthCode, req: TokenRequest): (p: Phase) {
    if SecretAccepted(clients, auth.clientId, req.secret) then Accepted(auth, req)
    else Done(TokenError(InvalidClient))
  }

  function TokenName(random: string): (t: string) {
    "sha256~" + random
  }

  /** `jwtUser` is what decoding a token that starts with "eyJ" yields; opaque tokens are looked up. */
  function AfterLookupToken(
    tokens: map<string, TokenInfo>, now: nat, bearer: Option<string>, jwtUser: Option<string>): (p: Phase)
  {
    match bearer
    case None => Done(Unauthorized)
    case Some(token) =>
      if "eyJ" <= token then
        (if jwtUser.Some? then Identified(jwtUser.value) else Done(Unauthorized))
      else if token in tokens && now - tokens[token].created < TOKEN_TTL then Identified(tokens[token].username)
      else Done(Unauthorized)
  }

  function AfterFetchProfile(users: seq<UserEntry>, username: string): (p: Phase) {
    var email, groups := username + "@ocp-sim.test", ["system:authenticated"];
    match Lookup(users, username)
    case Some(e) => Done(UserInfo(username, e.email.GetOr(email), e.groups.GetOr(groups)))
    case None => Done(UserInfo(username, email, groups))
  }

  function FreshCodes(codes: map<string, AuthCode>, now: nat): (r: map<string, AuthCode>) {
    map c | c in codes && now - codes[c].created < CODE_TTL :: codes[c]
  }

  function FreshTokens(tokens: map<string, TokenInfo>, now: nat): (r: map<string, TokenInfo>) {
    map t | t in tokens && now - tokens[t].created < TOKEN_TTL :: tokens[t]
  }

  /** Moves a request to its next phase; a new request must not reuse an id. */
  function Begin(w: World, id: nat, p: Phase): (r: World) {
    if id in w.procs then w else w.(procs := w.procs[id := p])
  }

  function Step(s256: string -> string, w: World, a: Action): (r: World) {
    match a
    case Tick(elapsed) => w.(now := w.now + elapsed)
    case Reload(htpasswd) => w.(users := FromHtpasswd(htpasswd))
    case SetClients(clients) => w.(clients := clients)
    case SweepCodes => w.(codes := FreshCodes(w.codes, w.now))
    case SweepTokens => w.(tokens := FreshTokens(w.tokens, w.now))
    case LoginPost(id, form) => Begin(w, id, AfterLoginPost(w.users, form))
    case LoginGet(id, query) => Begin(w, id, AfterLoginGet(w.clients, query))
    case LookupToken(id, bearer, jwtUser) => Begin(w, id, AfterLookupToken(w.tokens, w.now, bearer, jwtUser))
    case TakeCode(id, req) =>
      if id in w.procs then w
      else
        w.(procs := w.procs[id := AfterTakeCode(w.codes, w.now, req)],
           codes := if WellShaped(req) then w.codes - {req.code.value} else w.codes)
    case LookupClient(id) =>
      if id in w.procs && w.procs[id].PasswordAccepted? then
        w.(procs := w.procs[id := AfterLookupClient(w.clients, w.procs[id].grant)])
      else w
    case CheckBasic(id) =>
      if id in w.procs && w.procs[id].ClientAccepted? then
        w.(procs := w.procs[id := AfterCheckBasic(w.users, w.procs[id].grant, w.procs[id].password)])
      else w
    case IssueCode(id, random) =>
      if id in w.procs && w.procs[id].Cleared? then
        var g := w.procs[id].grant;
        w.(codes := w.codes[random := AuthCode(g.username, g.clientId, w.now, g.challenge, g.challengeMethod)],
           procs := w.procs[id := Done(Redirected(g.redirectUri, random))])
      else w
    case CheckGrant(id) =>
      if id in w.procs && w.procs[id].Taken? then
        w.(procs := w.procs[id := AfterCheckGrant(s256, w.now, w.procs[id].entry, w.procs[id].req)])
      else w
    case CheckClient(id) =>
      if id in w.procs && w.procs[id].NeedsClient? then
        w.(procs := w.procs[id := AfterCheckClient(w.clients, w.procs[id].auth, w.procs[id].req)])
      else w
    case MintToken(id, random) =>
      if id in w.procs && w.procs[id].Accepted? then
        w.(tokens := w.tokens[TokenName(random) := TokenInfo(w.procs[id].auth.username, w.now)],
           procs := w.procs[id := Done(TokenGranted(TokenName(random)))])
      else w
    case FetchProfile(id) =>
      if id in w.procs && w.procs[id].Identified? then
        w.(procs := w.procs[id := AfterFetchProfile(w.users, w.procs[id].username)])
      else w
  }

  function Run(s256: string -> string, w: World, acts: seq<Action>): (r: World) {
    if acts == [] then w
    else Step(s256, Run(s256, w, acts[..|acts| - 1]), acts[|acts| - 1])
  }

  /** Server start: empty tables; clock, users and clients are whatever they are. */
  predicate Initial(w: World) {
    w.codes == map[] && w.tokens == map[] && w.procs == map[]
  }

  lemma RunSnoc(s256: string -> string, w: World, acts: seq<Action>, a: Action)
    ensures Run(s256, w, acts + [a]) == Step(s256, Run(s256, w, acts), a)
  {
    assert (acts + [a])[..|acts|] == acts;
  }

  lemma {:induction false} RunAppend(s256: string -> string, w: World, xs: seq<Action>, ys: seq<Action>)
    ensures Run(s256, w, xs + ys) == Run(s256, Run(s256, w, xs), ys)
  {
    if ys == [] {
      assert xs + ys == xs;
    } else {
      var n := |ys| - 1;
      RunAppend(s256, w, xs, ys[..n]);
      assert xs + ys == (xs + ys[..n]) + [ys[n]];
      RunSnoc(s256, w, xs + ys[..n], ys[n]);
    }
  }

  /** The state in which the i-th action of a run fires. */
  function At(s256: string -> string, w: World, acts: seq<Action>, i: nat): (r: World)
    requires i <= |acts|
  {
    Run(s256, w, acts[..i])
  }
}
