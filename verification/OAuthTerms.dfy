/** The terms of the protocol, written out on the records: what a registration allows and what a client must present. */
module OAuthTerms {
  import opened Prelude
  import opened UserStore
  import opened OAuth

  /** The client is registered, and some registered address is a prefix of the redirect target. */
  ghost predicate TargetRegistered(clients: map<string, OAuthClient>, clientId: string, uri: string) {
    && clientId in clients
    && exists u :: u in clients[clientId].redirectUris && |u| <= |uri| && uri[..|u|] == u
  }

  /** The client is registered, and its secret is empty or the one presented. */
  ghost predicate SecretPresented(clients: map<string, OAuthClient>, clientId: string, secret: string) {
    clientId in clients && (clients[clientId].secret == "" || secret == clients[clientId].secret)
  }

  /** Some stored entry has this name and password. */
  ghost predicate Stored(users: seq<UserEntry>, username: string, password: string) {
    exists e :: e in users && e.username == username && e.password == password
  }

  /** The client id of the form counts, that of the Basic header only in its absence. */
  ghost predicate PresentsClient(req: TokenRequest, clientId: string) {
    req.clientId == Some(clientId) || (req.clientId.None? && req.basicClientId == Some(clientId))
  }

  /** Section 4.6 of RFC 7636, with the server's S256 default. */
  ghost predicate VerifierMatches(h: string -> string, verifier: string, challenge: string, pkceMethod: Option<string>) {
    || (pkceMethod == Some("plain") && verifier == challenge)
    || (pkceMethod in {None, Some("S256")} && h(verifier) == challenge)
  }

  /** The conditions of section 4.1.3 of RFC 6749 and section 4.6 of RFC 7636. */
  ghost predicate GrantHonoured(h: string -> string, now: nat, auth: AuthCode, req: TokenRequest) {
    && now - auth.created <= 300 * SECOND
    && PresentsClient(req, auth.clientId)
    && (auth.challenge.Some? ==>
          req.verifier.Some? && VerifierMatches(h, req.verifier.value, auth.challenge.value, auth.challengeMethod))
  }

  lemma AllowsRegistered(clients: map<string, OAuthClient>, clientId: string, uri: string)
    ensures ClientAllows(clients, clientId, uri) <==> TargetRegistered(clients, clientId, uri)
  {
    if ClientAllows(clients, clientId, uri) {
      var uris := clients[clientId].redirectUris;
      var i :| 0 <= i < |uris| && uris[i] <= uri;
      assert uris[i] in uris && uri[..|uris[i]|] == uris[i];
    }
    if TargetRegistered(clients, clientId, uri) {
      var uris := clients[clientId].redirectUris;
      var u :| u in uris && |u| <= |uri| && uri[..|u|] == u;
      var i :| 0 <= i < |uris| && uris[i] == u;
      assert uris[i] <= uri;
    }
  }

  lemma AcceptsSecret(clients: map<string, OAuthClient>, clientId: string, secret: string)
    ensures SecretAccepted(clients, clientId, secret) <==> SecretPresented(clients, clientId, secret)
  {
  }

  /** Passing the grant check is exactly meeting the protocol's conditions. */
  lemma CheckGrantSound(h: string -> string, now: nat, entry: Option<AuthCode>, req: TokenRequest)
    ensures var p := AfterCheckGrant(h, now, entry, req);
            && (p.NeedsClient? || p.Accepted? <==> entry.Some? && GrantHonoured(h, now, entry.value, req))
            && (p.NeedsClient? ==> p == NeedsClient(entry.value, req) && entry.value.challenge.None?)
            && (p.Accepted? ==> p == Accepted(entry.value, req) && entry.value.challenge.Some?)
            && (p.NeedsClient? || p.Accepted? || p.Done?)
  {
  }

  // ---- what the endpoints answer when nothing interferes ----

  /** POST /oauth/authorize: credentials first, then the client. */
  ghost function PostAnswer(w: World, form: LoginForm): Phase {
    if form.clientId.None? || form.redirectUri.None? then Done(BadRequest)
    else if form.username == "" || !Stored(w.users, form.username, form.password) then Done(LoginPage)
    else if !TargetRegistered(w.clients, form.clientId.value, form.redirectUri.value) then Done(BadRequest)
    else Cleared(Grant(form.username, form.clientId.value, form.redirectUri.value, form.challenge, form.challengeMethod))
  }

  /** GET /oauth/authorize: the client first, then the credentials of the Basic header, if there is one. */
  ghost function GetAnswer(w: World, query: LoginQuery): Phase {
    if query.clientId.None? || query.redirectUri.None? then Done(BadRequest)
    else if !TargetRegistered(w.clients, query.clientId.value, query.redirectUri.value) then Done(BadRequest)
    else match query.basic
      case Basic(user, password) =>
        if Stored(w.users, user, password)
        then Cleared(Grant(user, query.clientId.value, query.redirectUri.value, query.challenge, query.challengeMethod))
        else Done(Unauthorized)
      case BadBasic => Done(Unauthorized)
      case NoBasic => if query.csrf then Done(Unauthorized) else Done(LoginPage)
  }

  /** POST /oauth/token. */
  ghost function TokenAnswer(h: string -> string, w: World, req: TokenRequest, random: string): Outcome {
    if req.grantType != "authorization_code" then TokenError(UnsupportedGrantType)
    else if req.code.None? || (req.clientId.None? && req.basicClientId.None?) then TokenError(InvalidRequest)
    else if req.code.value !in w.codes then TokenError(InvalidGrant)
    else EntryAnswer(h, w, w.codes[req.code.value], req, random)
  }

  ghost function EntryAnswer(h: string -> string, w: World, auth: AuthCode, req: TokenRequest, random: string): Outcome {
    if w.now - auth.created > 300 * SECOND || !PresentsClient(req, auth.clientId) then TokenError(InvalidGrant)
    else match auth.challenge
      case None =>
        if SecretPresented(w.clients, auth.clientId, req.secret) then TokenGranted("sha256~" + random)
        else TokenError(InvalidClient)
      case Some(challenge) =>
        if req.verifier.None? then TokenError(InvalidRequest)
        else if VerifierMatches(h, req.verifier.value, challenge, auth.challengeMethod) then TokenGranted("sha256~" + random)
        else TokenError(InvalidGrant)
  }

  /** What happens around the requests changes one thing each. */
  lemma SurroundingsMean(h: string -> string, w: World, elapsed: nat, data: string, clients: map<string, OAuthClient>)
    ensures Step(h, w, Tick(elapsed)) == World(w.now + elapsed, w.codes, w.tokens, w.users, w.clients, w.procs)
    ensures Step(h, w, Reload(data)) == World(w.now, w.codes, w.tokens, FromHtpasswd(data), w.clients, w.procs)
    ensures Step(h, w, SetClients(clients)) == World(w.now, w.codes, w.tokens, w.users, clients, w.procs)
  {
  }

  lemma PostLoginMeaning(h: string -> string, w: World, id: nat, form: LoginForm)
    requires id !in w.procs
    ensures Step(h, Step(h, w, LoginPost(id, form)), LookupClient(id)) == w.(procs := w.procs[id := PostAnswer(w, form)])
  {
    if form.clientId.Some? && form.redirectUri.Some? {
      AllowsRegistered(w.clients, form.clientId.value, form.redirectUri.value);
    }
    var p := AfterLoginPost(w.users, form);
    assert w.procs[id := p][id := PostAnswer(w, form)] == w.procs[id := PostAnswer(w, form)];
  }

  lemma GetLoginMeaning(h: string -> string, w: World, id: nat, query: LoginQuery)
    requires id !in w.procs
    ensures Step(h, Step(h, w, LoginGet(id, query)), CheckBasic(id)) == w.(procs := w.procs[id := GetAnswer(w, query)])
  {
    if query.clientId.Some? && query.redirectUri.Some? {
      AllowsRegistered(w.clients, query.clientId.value, query.redirectUri.value);
    }
    var p := AfterLoginGet(w.clients, query);
    assert w.procs[id := p][id := GetAnswer(w, query)] == w.procs[id := GetAnswer(w, query)];
  }

  /** Entry `i` is the first of that name. */
  ghost predicate FirstNamed(users: seq<UserEntry>, username: string, i: nat) {
    i < |users| && users[i].username == username && forall j :: 0 <= j < i ==> users[j].username != username
  }

  /** The profile of the first entry of that name, with the defaults for what it lacks; the defaults alone if there is none. */
  ghost predicate ProfileOf(users: seq<UserEntry>, username: string, o: Outcome) {
    && o.UserInfo? && o.username == username
    && (forall i: nat :: FirstNamed(users, username, i) ==>
          && o.email == (match users[i].email case Some(e) => e case None => username + "@ocp-sim.test")
          && o.groups == (match users[i].groups case Some(g) => g case None => ["system:authenticated"]))
    && ((forall e :: e in users ==> e.username != username) ==>
          o.email == username + "@ocp-sim.test" && o.groups == ["system:authenticated"])
  }

  /** Whom a bearer token identifies: JWT-shaped ones by their own claim, others by the table while younger than 86 400 s. */
  ghost function Bearer(w: World, bearer: Option<string>, jwtUser: Option<string>): Option<string> {
    match bearer
    case None => None
    case Some(t) =>
      if |t| >= 3 && t[..3] == "eyJ" then jwtUser
      else if t in w.tokens && w.now - w.tokens[t].created < 86_400 * SECOND then Some(w.tokens[t].username)
      else None
  }

  lemma LookupIsFirst(users: seq<UserEntry>, username: string, i: nat)
    requires FirstNamed(users, username, i)
    ensures Lookup(users, username) == Some(users[i])
  {
    var r := Lookup(users, username);
    assert users[i] in users;
    var k :| 0 <= k < |users| && users[k] == r.value && r.value.username == username
             && forall j :: 0 <= j < k ==> users[j].username != username;
    assert k == i;
  }

  /** GET /oauth/userinfo, undisturbed. */
  lemma UserInfoMeaning(h: string -> string, w: World, id: nat, bearer: Option<string>, jwtUser: Option<string>)
    requires id !in w.procs
    ensures var w' := Step(h, Step(h, w, LookupToken(id, bearer, jwtUser)), FetchProfile(id));
            && w' == w.(procs := w'.procs)
            && id in w'.procs && w'.procs[id].Done?
            && match Bearer(w, bearer, jwtUser)
               case None => w'.procs[id].outcome == Unauthorized
               case Some(user) => ProfileOf(w.users, user, w'.procs[id].outcome)
  {
    InquirySteps(h, w, id, bearer, jwtUser);
    BearerMeaning(w, bearer, jwtUser);
    if Bearer(w, bearer, jwtUser).Some? { ProfileMeaning(w.users, Bearer(w, bearer, jwtUser).value); }
  }

  lemma InquirySteps(h: string -> string, w: World, id: nat, bearer: Option<string>, jwtUser: Option<string>)
    requires id !in w.procs
    ensures var p := AfterLookupToken(w.tokens, w.now, bearer, jwtUser);
            Step(h, Step(h, w, LookupToken(id, bearer, jwtUser)), FetchProfile(id)) ==
            w.(procs := w.procs[id := if p.Identified? then AfterFetchProfile(w.users, p.username) else p])
  {
    var p := AfterLookupToken(w.tokens, w.now, bearer, jwtUser);
    if p.Identified? {
      var q := AfterFetchProfile(w.users, p.username);
      assert w.procs[id := p][id := q] == w.procs[id := q];
    }
  }

  lemma BearerMeaning(w: World, bearer: Option<string>, jwtUser: Option<string>)
    ensures AfterLookupToken(w.tokens, w.now, bearer, jwtUser) ==
            match Bearer(w, bearer, jwtUser) case None => Done(Unauthorized) case Some(user) => Identified(user)
  {
    if bearer.Some? { assert "eyJ" <= bearer.value <==> |bearer.value| >= 3 && bearer.value[..3] == "eyJ"; }
  }

  lemma ProfileMeaning(users: seq<UserEntry>, username: string)
    ensures AfterFetchProfile(users, username).Done? && ProfileOf(users, username, AfterFetchProfile(users, username).outcome)
  {
    forall i: nat | FirstNamed(users, username, i) ensures Lookup(users, username) == Some(users[i]) {
      LookupIsFirst(users, username, i);
    }
  }
}
