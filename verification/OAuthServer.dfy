/** The server object: the handlers' lock sections as methods that update its tables in place. */
module OAuthServer {
  import opened Prelude
  import opened UserStore
  import opened OAuth
  import opened OAuthTerms

  class OAuthState {
    var now: nat
    var codes: map<string, AuthCode>
    var tokens: map<string, TokenInfo>
    var users: seq<UserEntry>
    var clients: map<string, OAuthClient>
    var procs: map<nat, Phase>

    ghost function View(): World
      reads this
    {
      World(now, codes, tokens, users, clients, procs)
    }

    constructor (start: nat, initialUsers: seq<UserEntry>, registered: map<string, OAuthClient>)
      ensures View() == World(start, map[], map[], initialUsers, registered, map[])
      ensures Initial(View())
    {
      now, users, clients := start, initialUsers, registered;
      codes, tokens, procs := map[], map[], map[];
    }

    /** The htpasswd watcher; a secret without the key leaves the store alone. */
    method ReloadUsers(ghost h: string -> string, data: Option<string>)
      modifies this`users
      ensures View() == if data.Some? then Step(h, old(View()), Reload(data.value)) else old(View())
    {
      match data
      case Some(text) => users := FromHtpasswd(text);
      case None =>
    }

    /** One round of the sweeper over each table, with whatever other requests do in between left to the caller. */
    method SweepCodeTable(ghost h: string -> string) returns (removed: nat)
      modifies this`codes
      ensures View() == Step(h, old(View()), SweepCodes)
      ensures removed == |old(codes)| - |codes|
      ensures forall c :: c in codes <==> c in old(codes) && now - old(codes)[c].created < CODE_TTL
    {
      var before := codes;
      codes := map c | c in codes && now - codes[c].created < CODE_TTL :: codes[c];
      assert codes.Keys <= before.Keys;
      KeysBound(codes.Keys, before.Keys);
      removed := |before| - |codes|;
    }

    method SweepTokenTable(ghost h: string -> string) returns (removed: nat)
      modifies this`tokens
      ensures View() == Step(h, old(View()), SweepTokens)
      ensures removed == |old(tokens)| - |tokens|
      ensures forall t :: t in tokens <==> t in old(tokens) && now - old(tokens)[t].created < TOKEN_TTL
    {
      var before := tokens;
      tokens := map t | t in tokens && now - tokens[t].created < TOKEN_TTL :: tokens[t];
      assert tokens.Keys <= before.Keys;
      KeysBound(tokens.Keys, before.Keys);
      removed := |before| - |tokens|;
    }

    /** The write-locked section of `issue_auth_code`. */
    method StoreCode(ghost h: string -> string, id: nat, random: string)
      requires id in procs && procs[id].Cleared?
      modifies this`codes, this`procs
      ensures View() == Step(h, old(View()), IssueCode(id, random))
    {
      var g := procs[id].grant;
      codes := codes[random := AuthCode(g.username, g.clientId, now, g.challenge, g.challengeMethod)];
      procs := procs[id := Done(Redirected(g.redirectUri, random))];
    }

    /** The start of `handle_token` up to and including the write-locked removal. */
    method RemoveCode(ghost h: string -> string, id: nat, req: TokenRequest)
      requires id !in procs
      modifies this`codes, this`procs
      ensures View() == Step(h, old(View()), TakeCode(id, req))
    {
      if req.grantType != "authorization_code" {
        procs := procs[id := Done(TokenError(UnsupportedGrantType))];
        return;
      }
      if req.code.None? {
        procs := procs[id := Done(TokenError(InvalidRequest))];
        return;
      }
      var client := req.clientId;
      if client.None? {
        client := req.basicClientId;
      }
      if client.None? {
        procs := procs[id := Done(TokenError(InvalidRequest))];
        return;
      }
      var code := req.code.value;
      if code in codes {
        procs := procs[id := Taken(Some(codes[code]), req, now)];
        codes := codes - {code};
      } else {
        procs := procs[id := Taken(None, req, now)];
        assert codes - {code} == codes;
      }
    }

    /** Expiry, client and PKCE checks; they need the clock but no lock. */
    method CheckEntry(s256: string -> string, id: nat)
      modifies this`procs
      ensures View() == Step(s256, old(View()), CheckGrant(id))
    {
      if id !in procs || !procs[id].Taken? { return; }
      var req, entry := procs[id].req, procs[id].entry;
      var next: Phase;
      if entry.None? || now - entry.value.created > CODE_TTL || ClientOf(req) != Some(entry.value.clientId) {
        next := Done(TokenError(InvalidGrant));
      } else if entry.value.challenge.None? {
        next := NeedsClient(entry.value, req);
      } else if req.verifier.None? {
        next := Done(TokenError(InvalidRequest));
      } else if VerifyPkce(s256, req.verifier.value, entry.value.challenge.value, entry.value.challengeMethod.GetOr("S256")) {
        next := Accepted(entry.value, req);
      } else {
        next := Done(TokenError(InvalidGrant));
      }
      procs := procs[id := next];
    }

    /** The client look-up for codes without a challenge. */
    method CheckSecret(ghost h: string -> string, id: nat)
      modifies this`procs
      ensures View() == Step(h, old(View()), CheckClient(id))
    {
      if id !in procs || !procs[id].NeedsClient? { return; }
      var auth, req := procs[id].auth, procs[id].req;
      if auth.clientId !in clients {
        procs := procs[id := Done(TokenError(InvalidClient))];
        return;
      }
      var expected := clients[auth.clientId].secret;
      if expected != [] && req.secret != expected {
        procs := procs[id := Done(TokenError(InvalidClient))];
        return;
      }
      procs := procs[id := Accepted(auth, req)];
    }

    /** The write-locked insertion at the end of `handle_token`. */
    method StoreToken(ghost h: string -> string, id: nat, random: string)
      modifies this`tokens, this`procs
      ensures View() == Step(h, old(View()), MintToken(id, random))
    {
      if id !in procs || !procs[id].Accepted? { return; }
      var auth := procs[id].auth;
      tokens := tokens[TokenName(random) := TokenInfo(auth.username, now)];
      procs := procs[id := Done(TokenGranted(TokenName(random)))];
    }

    /**
      * A whole token request that no other request interrupts: granted exactly when the protocol's conditions hold
      * of the stored entry, and a well-shaped request uses the code up either way.
      */
    method HandleToken(s256: string -> string, id: nat, req: TokenRequest, random: string) returns (outcome: Outcome)
      requires id !in procs
      modifies this`codes, this`tokens, this`procs
      ensures id in procs && procs[id] == Done(outcome)
      ensures outcome == TokenAnswer(s256, old(View()), req, random)
      ensures outcome.TokenGranted? <==> Redeemable(s256, old(View()), req)
      ensures codes == if NamesCode(req) then old(codes) - {req.code.value} else old(codes)
      ensures tokens == if outcome.TokenGranted?
                        then old(tokens)[outcome.token := TokenInfo(old(codes)[req.code.value].username, now)]
                        else old(tokens)
      ensures View() == Redeem(s256, old(View()), id, req, random)
    {
      RemoveCode(s256, id, req);
      CheckEntry(s256, id);
      CheckSecret(s256, id);
      StoreToken(s256, id, random);
      TokenRequestMeaning(s256, old(View()), id, req, random);
      GrantedIff(s256, old(View()), req, random);
      outcome := procs[id].outcome;
    }
  }

  /** The four sections of a token request, one after the other. */
  function Redeem(h: string -> string, w: World, id: nat, req: TokenRequest, random: string): (r: World) {
    Step(h, Step(h, Step(h, Step(h, w, TakeCode(id, req)), CheckGrant(id)), CheckClient(id)), MintToken(id, random))
  }

  /** The request is one for a token, names a code, and names a client. */
  ghost predicate NamesCode(req: TokenRequest) {
    req.grantType == "authorization_code" && req.code.Some? && (req.clientId.Some? || req.basicClientId.Some?)
  }

  /** The stored entry lets the request through. */
  ghost predicate Redeemable(h: string -> string, w: World, req: TokenRequest) {
    && NamesCode(req) && req.code.value in w.codes
    && GrantHonoured(h, w.now, w.codes[req.code.value], req)
    && (w.codes[req.code.value].challenge.None? ==>
          SecretPresented(w.clients, w.codes[req.code.value].clientId, req.secret))
  }

  /** A token is granted exactly when the stored entry lets the request through; a wrong secret is answered by invalid_client. */
  lemma GrantedIff(h: string -> string, w: World, req: TokenRequest, random: string)
    ensures TokenAnswer(h, w, req, random).TokenGranted? <==> Redeemable(h, w, req)
    ensures NamesCode(req) && req.code.value in w.codes && w.codes[req.code.value].challenge.None?
            && GrantHonoured(h, w.now, w.codes[req.code.value], req) ==>
              TokenAnswer(h, w, req, random) ==
              var id := w.codes[req.code.value].clientId;
              if id in w.clients && (w.clients[id].secret == "" || w.clients[id].secret == req.secret)
              then TokenGranted("sha256~" + random) else TokenError(InvalidClient)
  {
  }

  /** The phase a checked entry ends in: ready for the token, or answered. */
  ghost function Judgement(h: string -> string, w: World, req: TokenRequest, random: string): Phase {
    var o := TokenAnswer(h, w, req, random);
    if o.TokenGranted? && NamesCode(req) && req.code.value in w.codes then Accepted(w.codes[req.code.value], req) else Done(o)
  }

  lemma EntryJudged(h: string -> string, w: World, auth: AuthCode, req: TokenRequest, random: string)
    requires ClientOf(req).Some?
    ensures var p := AfterCheckGrant(h, w.now, Some(auth), req);
            var q := if p.NeedsClient? then AfterCheckClient(w.clients, p.auth, p.req) else p;
            var o := EntryAnswer(h, w, auth, req, random);
            q == if o.TokenGranted? then Accepted(auth, req) else Done(o)
  {
    AcceptsSecret(w.clients, auth.clientId, req.secret);
  }

  /** Up to the verdict: the code is gone, nothing else has changed, and the request stands where the entry puts it. */
  lemma JudgedRequest(h: string -> string, w: World, id: nat, req: TokenRequest, random: string)
    requires id !in w.procs
    ensures var w3 := Step(h, Step(h, Step(h, w, TakeCode(id, req)), CheckGrant(id)), CheckClient(id));
            && w3.codes == (if NamesCode(req) then w.codes - {req.code.value} else w.codes)
            && w3.tokens == w.tokens && w3.now == w.now && id in w3.procs
            && w3.procs[id] == Judgement(h, w, req, random)
  {
    if NamesCode(req) && req.code.value in w.codes {
      FoundJudged(h, w, id, req, random);
    }
  }

  lemma FoundJudged(h: string -> string, w: World, id: nat, req: TokenRequest, random: string)
    requires id !in w.procs && NamesCode(req) && req.code.value in w.codes
    ensures var w3 := Step(h, Step(h, Step(h, w, TakeCode(id, req)), CheckGrant(id)), CheckClient(id));
            && w3.codes == w.codes - {req.code.value} && w3.tokens == w.tokens && w3.now == w.now && id in w3.procs
            && w3.procs[id] == Judgement(h, w, req, random)
  {
    var auth := w.codes[req.code.value];
    assert Step(h, w, TakeCode(id, req)).procs[id] == Taken(Some(auth), req, w.now);
    EntryJudged(h, w, auth, req, random);
  }

  /** Undisturbed, a token request is answered as the protocol's conditions on the stored entry say, and changes nothing else. */
  lemma TokenRequestMeaning(h: string -> string, w: World, id: nat, req: TokenRequest, random: string)
    requires id !in w.procs
    ensures var w' := Redeem(h, w, id, req, random);
            var o := TokenAnswer(h, w, req, random);
            && id in w'.procs && w'.procs[id] == Done(o)
            && w'.codes == (if NamesCode(req) then w.codes - {req.code.value} else w.codes)
            && w'.tokens == if Redeemable(h, w, req)
                            then w.tokens["sha256~" + random := TokenInfo(w.codes[req.code.value].username, w.now)]
                            else w.tokens
  {
    JudgedRequest(h, w, id, req, random);
    GrantedIff(h, w, req, random);
    MintIfAccepted(h, Step(h, Step(h, Step(h, w, TakeCode(id, req)), CheckGrant(id)), CheckClient(id)), id, random);
  }

  lemma MintIfAccepted(h: string -> string, w: World, id: nat, random: string)
    requires id in w.procs && (w.procs[id].Accepted? || w.procs[id].Done?)
    ensures var w' := Step(h, w, MintToken(id, random));
            && w'.codes == w.codes && id in w'.procs && w'.procs[id].Done?
            && if w.procs[id].Accepted?
               then w'.procs[id] == Done(TokenGranted("sha256~" + random))
                    && w'.tokens == w.tokens["sha256~" + random := TokenInfo(w.procs[id].auth.username, w.now)]
               else w' == w
  {
  }

  lemma KeysBound<T>(a: set<T>, b: set<T>)
    requires a <= b
    ensures |a| <= |b|
  {
    assert b == a + (b - a);
  }

  /** `Redeem` is a run of the interleaved machine, so everything proved of runs holds of it. */
  lemma RedeemIsRun(h: string -> string, w: World, id: nat, req: TokenRequest, random: string)
    ensures Redeem(h, w, id, req, random) ==
            Run(h, w, [TakeCode(id, req), CheckGrant(id), CheckClient(id), MintToken(id, random)])
  {
    var a, b, c, d := TakeCode(id, req), CheckGrant(id), CheckClient(id), MintToken(id, random);
    assert [a, b, c, d] == [a, b, c] + [d] && [a, b, c] == [a, b] + [c] && [a, b] == [a] + [b] && [a] == [] + [a];
    RunSnoc(h, w, [a, b, c], d);
    RunSnoc(h, w, [a, b], c);
    RunSnoc(h, w, [a], b);
    RunSnoc(h, w, [], a);
  }
}
