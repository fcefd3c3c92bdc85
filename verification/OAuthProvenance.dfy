/** Every token in the server's table has a complete, ordered history behind it. */
module OAuthProvenance {
  import opened Prelude
  import opened UserStore
  import opened OAuth
  import opened OAuthTerms

  /** The positions in a run where one token was earned, and what was presented there. */
  datatype Story = Story(
    login: nat, approve: nat, issue: nat, take: nat, check: nat, client: nat, mint: nat,
    loginId: nat, redeemId: nat,
    grant: Grant, code: string, auth: AuthCode, req: TokenRequest, random: string)

  /**
    * Request `id`, new or waiting for this very check, asked for `g` and presented credentials of its user that the user
    * store of that instant accepts.
    */
  ghost predicate LoginAt(h: string -> string, w: World, acts: seq<Action>, i: nat, id: nat, g: Grant) {
    i < |acts| &&
    var s := At(h, w, acts, i);
    match acts[i]
    case LoginPost(pid, form) =>
      && pid == id && id !in s.procs
      && form.clientId == Some(g.clientId) && form.redirectUri == Some(g.redirectUri)
      && form.challenge == g.challenge && form.challengeMethod == g.challengeMethod
      && form.username == g.username && Authenticate(s.users, g.username, form.password).Some?
    case CheckBasic(pid) =>
      && pid == id && id in s.procs && s.procs[id].ClientAccepted? && s.procs[id].grant == g
      && Authenticate(s.users, g.username, s.procs[id].password).Some?
    case _ => false
  }

  /** The registered client of that instant allowed the redirect target that request `id`, new or waiting for this check, had asked for. */
  ghost predicate ApprovedAt(h: string -> string, w: World, acts: seq<Action>, i: nat, id: nat, g: Grant) {
    i < |acts| &&
    var s := At(h, w, acts, i);
    && TargetRegistered(s.clients, g.clientId, g.redirectUri)
    && match acts[i]
       case LookupClient(pid) => pid == id && id in s.procs && s.procs[id] == PasswordAccepted(g)
       case LoginGet(pid, query) =>
         && pid == id && id !in s.procs
         && query.clientId == Some(g.clientId) && query.redirectUri == Some(g.redirectUri)
         && query.challenge == g.challenge && query.challengeMethod == g.challengeMethod
         && query.basic.Basic? && query.basic.user == g.username
       case _ => false
  }

  /** The code was stored for a request that had logged in and whose client was approved before, for what it had asked. */
  ghost predicate Issued(h: string -> string, w: World, acts: seq<Action>, st: Story) {
    && st.login < st.issue < |acts| && st.approve < st.issue
    && LoginAt(h, w, acts, st.login, st.loginId, st.grant)
    && ApprovedAt(h, w, acts, st.approve, st.loginId, st.grant)
    && acts[st.issue] == IssueCode(st.loginId, st.code)
    && InPhase(At(h, w, acts, st.issue), st.loginId, Cleared(st.grant))
    && st.auth == AuthCode(st.grant.username, st.grant.clientId, At(h, w, acts, st.issue).now,
                           st.grant.challenge, st.grant.challengeMethod)
  }

  ghost predicate InPhase(s: World, id: nat, p: Phase) {
    id in s.procs && s.procs[id] == p
  }

  /** Later that very entry was taken out of the table by a new token request naming the code. */
  ghost predicate Redeemed(h: string -> string, w: World, acts: seq<Action>, st: Story) {
    && Issued(h, w, acts, st)
    && st.issue < st.take < |acts|
    && acts[st.take] == TakeCode(st.redeemId, st.req) && WellShaped(st.req) && st.req.code == Some(st.code)
    && st.redeemId !in At(h, w, acts, st.take).procs
    && st.code in At(h, w, acts, st.take).codes && At(h, w, acts, st.take).codes[st.code] == st.auth
  }

  ghost predicate Checked(h: string -> string, w: World, acts: seq<Action>, st: Story) {
    && Redeemed(h, w, acts, st)
    && st.take < st.check < |acts|
    && acts[st.check] == CheckGrant(st.redeemId)
    && InPhase(At(h, w, acts, st.check), st.redeemId, Taken(Some(st.auth), st.req, At(h, w, acts, st.take).now))
    && GrantHonoured(h, At(h, w, acts, st.check).now, st.auth, st.req)
  }

  /** A code without a challenge also needed the secret of a registered client. */
  ghost predicate Vetted(h: string -> string, w: World, acts: seq<Action>, st: Story) {
    && Checked(h, w, acts, st)
    && (st.auth.challenge.None? ==>
          && st.check < st.client < |acts|
          && acts[st.client] == CheckClient(st.redeemId)
          && InPhase(At(h, w, acts, st.client), st.redeemId, NeedsClient(st.auth, st.req))
          && SecretPresented(At(h, w, acts, st.client).clients, st.auth.clientId, st.req.secret))
  }

  ghost predicate Minted(h: string -> string, w: World, acts: seq<Action>, st: Story) {
    && Vetted(h, w, acts, st)
    && st.check < st.mint < |acts|
    && (st.auth.challenge.None? ==> st.client < st.mint)
    && acts[st.mint] == MintToken(st.redeemId, st.random)
    && InPhase(At(h, w, acts, st.mint), st.redeemId, Accepted(st.auth, st.req))
  }

  /** What the history must hold for a request in a given phase. */
  ghost predicate PhaseStory(h: string -> string, w: World, acts: seq<Action>, id: nat, p: Phase, st: Story) {
    match p
    case PasswordAccepted(g) => LoginAt(h, w, acts, st.login, id, g)
    case ClientAccepted(g, _) => ApprovedAt(h, w, acts, st.approve, id, g)
    case Cleared(g) => LoginAt(h, w, acts, st.login, id, g) && ApprovedAt(h, w, acts, st.approve, id, g)
    case Taken(entry, req, at) =>
      entry.Some? ==>
        && Redeemed(h, w, acts, st) && st.redeemId == id && st.auth == entry.value && st.req == req
        && at == At(h, w, acts, st.take).now
    case NeedsClient(auth, req) =>
      Checked(h, w, acts, st) && st.redeemId == id && st.auth == auth && st.req == req
    case Accepted(auth, req) =>
      Vetted(h, w, acts, st) && st.redeemId == id && st.auth == auth && st.req == req
    case _ => true
  }

  ghost predicate CodesJustified(h: string -> string, w: World, acts: seq<Action>) {
    var s := Run(h, w, acts);
    forall c :: c in s.codes ==> exists st :: Issued(h, w, acts, st) && st.code == c && st.auth == s.codes[c]
  }

  ghost predicate ProcsJustified(h: string -> string, w: World, acts: seq<Action>) {
    var s := Run(h, w, acts);
    forall id :: id in s.procs ==> exists st :: PhaseStory(h, w, acts, id, s.procs[id], st)
  }

  /** The story ends in the insertion of exactly this table entry. */
  ghost predicate TokenStory(h: string -> string, w: World, acts: seq<Action>, t: string, info: TokenInfo, st: Story) {
    && Minted(h, w, acts, st)
    && t == TokenName(st.random)
    && info == TokenInfo(st.auth.username, At(h, w, acts, st.mint).now)
  }

  ghost predicate TokensJustified(h: string -> string, w: World, acts: seq<Action>) {
    var s := Run(h, w, acts);
    forall t :: t in s.tokens ==> exists st :: TokenStory(h, w, acts, t, s.tokens[t], st)
  }

  // ---- histories only grow ----

  lemma EventsGrow(h: string -> string, w: World, acts: seq<Action>, a: Action, i: nat, id: nat, g: Grant)
    ensures LoginAt(h, w, acts, i, id, g) ==> LoginAt(h, w, acts + [a], i, id, g)
    ensures ApprovedAt(h, w, acts, i, id, g) ==> ApprovedAt(h, w, acts + [a], i, id, g)
  {
    if i < |acts| { assert (acts + [a])[..i] == acts[..i]; }
  }

  lemma AtGrows(h: string -> string, w: World, acts: seq<Action>, a: Action, i: nat)
    requires i <= |acts|
    ensures At(h, w, acts + [a], i) == At(h, w, acts, i)
  {
    assert (acts + [a])[..i] == acts[..i];
  }

  lemma IssuedGrows(h: string -> string, w: World, acts: seq<Action>, a: Action, st: Story)
    requires Issued(h, w, acts, st)
    ensures Issued(h, w, acts + [a], st)
  {
    EventsGrow(h, w, acts, a, st.login, st.loginId, st.grant);
    EventsGrow(h, w, acts, a, st.approve, st.loginId, st.grant);
    AtGrows(h, w, acts, a, st.issue);
  }

  lemma RedeemedGrows(h: string -> string, w: World, acts: seq<Action>, a: Action, st: Story)
    requires Redeemed(h, w, acts, st)
    ensures Redeemed(h, w, acts + [a], st)
  {
    IssuedGrows(h, w, acts, a, st);
    AtGrows(h, w, acts, a, st.take);
  }

  lemma CheckedGrows(h: string -> string, w: World, acts: seq<Action>, a: Action, st: Story)
    requires Checked(h, w, acts, st)
    ensures Checked(h, w, acts + [a], st)
  {
    RedeemedGrows(h, w, acts, a, st);
    AtGrows(h, w, acts, a, st.take);
    AtGrows(h, w, acts, a, st.check);
  }

  lemma VettedGrows(h: string -> string, w: World, acts: seq<Action>, a: Action, st: Story)
    requires Vetted(h, w, acts, st)
    ensures Vetted(h, w, acts + [a], st)
  {
    CheckedGrows(h, w, acts, a, st);
    if st.auth.challenge.None? { AtGrows(h, w, acts, a, st.client); }
  }

  lemma MintedGrows(h: string -> string, w: World, acts: seq<Action>, a: Action, st: Story)
    requires Minted(h, w, acts, st)
    ensures Minted(h, w, acts + [a], st)
  {
    VettedGrows(h, w, acts, a, st);
    AtGrows(h, w, acts, a, st.mint);
  }

  lemma PhaseStoryGrows(h: string -> string, w: World, acts: seq<Action>, a: Action, id: nat, p: Phase, st: Story)
    requires PhaseStory(h, w, acts, id, p, st)
    ensures PhaseStory(h, w, acts + [a], id, p, st)
  {
    match p
    case PasswordAccepted(g) => EventsGrow(h, w, acts, a, st.login, id, g);
    case ClientAccepted(g, _) => EventsGrow(h, w, acts, a, st.approve, id, g);
    case Cleared(g) =>
      EventsGrow(h, w, acts, a, st.login, id, g);
      EventsGrow(h, w, acts, a, st.approve, id, g);
    case Taken(entry, _, _) => if entry.Some? { RedeemedGrows(h, w, acts, a, st); AtGrows(h, w, acts, a, st.take); }
    case NeedsClient(_, _) => CheckedGrows(h, w, acts, a, st);
    case Accepted(_, _) => VettedGrows(h, w, acts, a, st);
    case _ =>
  }

  // ---- one step keeps everything justified ----

  lemma AtNow(h: string -> string, w: World, acts: seq<Action>, a: Action)
    ensures At(h, w, acts + [a], |acts|) == Run(h, w, acts)
    ensures (acts + [a])[|acts|] == a
  {
    assert (acts + [a])[..|acts|] == acts;
  }

  /** Only issuing puts a new entry into the code table. */
  lemma CodeOrigin(h: string -> string, s: World, a: Action, c: string)
    requires c in Step(h, s, a).codes
    requires !(c in s.codes && Step(h, s, a).codes[c] == s.codes[c])
    ensures a.IssueCode? && c == a.random && a.id in s.procs && s.procs[a.id].Cleared?
    ensures var g := s.procs[a.id].grant;
            Step(h, s, a).codes[c] == AuthCode(g.username, g.clientId, s.now, g.challenge, g.challengeMethod)
  {
  }

  /** Only minting puts a new entry into the token table. */
  lemma TokenOrigin(h: string -> string, s: World, a: Action, t: string)
    requires t in Step(h, s, a).tokens
    requires !(t in s.tokens && Step(h, s, a).tokens[t] == s.tokens[t])
    ensures a.MintToken? && t == TokenName(a.random) && a.id in s.procs && s.procs[a.id].Accepted?
    ensures Step(h, s, a).tokens[t] == TokenInfo(s.procs[a.id].auth.username, s.now)
  {
  }

  lemma IssueStory(h: string -> string, w: World, acts: seq<Action>, id: nat, c: string, g: Grant)
    requires ProcsJustified(h, w, acts) && InPhase(Run(h, w, acts), id, Cleared(g))
    ensures HasIssue(h, w, acts + [IssueCode(id, c)], c,
                     AuthCode(g.username, g.clientId, Run(h, w, acts).now, g.challenge, g.challengeMethod))
  {
    var st :| PhaseStory(h, w, acts, id, Cleared(g), st);
    IssuedNow(h, w, acts, id, c, g, st);
  }

  lemma IssuedNow(h: string -> string, w: World, acts: seq<Action>, id: nat, c: string, g: Grant, st: Story)
    requires PhaseStory(h, w, acts, id, Cleared(g), st) && InPhase(Run(h, w, acts), id, Cleared(g))
    ensures HasIssue(h, w, acts + [IssueCode(id, c)], c,
                     AuthCode(g.username, g.clientId, Run(h, w, acts).now, g.challenge, g.challengeMethod))
  {
    var a := IssueCode(id, c);
    EventsGrow(h, w, acts, a, st.login, id, g);
    EventsGrow(h, w, acts, a, st.approve, id, g);
    AtNow(h, w, acts, a);
    var auth := AuthCode(g.username, g.clientId, Run(h, w, acts).now, g.challenge, g.challengeMethod);
    assert Issued(h, w, acts + [a], st.(issue := |acts|, loginId := id, grant := g, code := c, auth := auth));
  }

  ghost predicate HasIssue(h: string -> string, w: World, acts: seq<Action>, c: string, auth: AuthCode) {
    exists st :: Issued(h, w, acts, st) && st.code == c && st.auth == auth
  }

  lemma OldCodeStory(h: string -> string, w: World, acts: seq<Action>, a: Action, c: string)
    requires CodesJustified(h, w, acts) && c in Run(h, w, acts).codes
    ensures HasIssue(h, w, acts + [a], c, Run(h, w, acts).codes[c])
  {
    var st :| Issued(h, w, acts, st) && st.code == c && st.auth == Run(h, w, acts).codes[c];
    IssuedGrows(h, w, acts, a, st);
  }

  lemma CodesStep(h: string -> string, w: World, acts: seq<Action>, a: Action)
    requires CodesJustified(h, w, acts) && ProcsJustified(h, w, acts)
    ensures CodesJustified(h, w, acts + [a])
  {
    var s, s' := Run(h, w, acts), Run(h, w, acts + [a]);
    RunSnoc(h, w, acts, a);
    forall c | c in s'.codes ensures HasIssue(h, w, acts + [a], c, s'.codes[c]) {
      if c in s.codes && s'.codes[c] == s.codes[c] {
        OldCodeStory(h, w, acts, a, c);
      } else {
        CodeOrigin(h, s, a, c);
        IssueStory(h, w, acts, a.id, c, s.procs[a.id].grant);
      }
    }
  }

  /** A story whose every position is `n`; enough for phases that need only the last action, or nothing. */
  ghost function Blank(n: nat): Story {
    Story(n, n, n, n, n, n, n, 0, 0, Grant([], [], [], None, None), [],
          AuthCode([], [], 0, None, None), TokenRequest([], None, None, None, [], None), [])
  }

  ghost predicate HasStory(h: string -> string, w: World, acts: seq<Action>, id: nat, p: Phase) {
    exists st :: PhaseStory(h, w, acts, id, p, st)
  }

  lemma LoginPostStory(h: string -> string, w: World, acts: seq<Action>, id: nat, form: LoginForm)
    requires id !in Run(h, w, acts).procs
    ensures HasStory(h, w, acts + [LoginPost(id, form)], id, AfterLoginPost(Run(h, w, acts).users, form))
  {
    AtNow(h, w, acts, LoginPost(id, form));
    assert PhaseStory(h, w, acts + [LoginPost(id, form)], id, AfterLoginPost(Run(h, w, acts).users, form), Blank(|acts|));
  }

  lemma LoginGetStory(h: string -> string, w: World, acts: seq<Action>, id: nat, query: LoginQuery)
    requires id !in Run(h, w, acts).procs
    ensures HasStory(h, w, acts + [LoginGet(id, query)], id, AfterLoginGet(Run(h, w, acts).clients, query))
  {
    var a, s := LoginGet(id, query), Run(h, w, acts);
    var p := AfterLoginGet(s.clients, query);
    AtNow(h, w, acts, a);
    if p.ClientAccepted? {
      AllowsRegistered(s.clients, p.grant.clientId, p.grant.redirectUri);
      assert ApprovedAt(h, w, acts + [a], |acts|, id, p.grant);
      assert PhaseStory(h, w, acts + [a], id, p, Blank(|acts|));
    } else {
      NoStory(h, w, acts + [a], id, p);
    }
  }

  lemma LookupClientStory(h: string -> string, w: World, acts: seq<Action>, id: nat, g: Grant)
    requires HasStory(h, w, acts, id, PasswordAccepted(g)) && InPhase(Run(h, w, acts), id, PasswordAccepted(g))
    ensures HasStory(h, w, acts + [LookupClient(id)], id, AfterLookupClient(Run(h, w, acts).clients, g))
  {
    var a := LookupClient(id);
    AtNow(h, w, acts, a);
    var st :| PhaseStory(h, w, acts, id, PasswordAccepted(g), st);
    EventsGrow(h, w, acts, a, st.login, id, g);
    var p := AfterLookupClient(Run(h, w, acts).clients, g);
    AllowsRegistered(Run(h, w, acts).clients, g.clientId, g.redirectUri);
    var st' := Blank(|acts|).(login := st.login);
    assert p.Cleared? ==> ApprovedAt(h, w, acts + [a], st'.approve, id, g);
    assert PhaseStory(h, w, acts + [a], id, p, st');
  }

  lemma CheckBasicStory(h: string -> string, w: World, acts: seq<Action>, id: nat, g: Grant, password: string)
    requires HasStory(h, w, acts, id, ClientAccepted(g, password))
    requires InPhase(Run(h, w, acts), id, ClientAccepted(g, password))
    ensures HasStory(h, w, acts + [CheckBasic(id)], id, AfterCheckBasic(Run(h, w, acts).users, g, password))
  {
    var a := CheckBasic(id);
    AtNow(h, w, acts, a);
    var st :| PhaseStory(h, w, acts, id, ClientAccepted(g, password), st);
    var p := AfterCheckBasic(Run(h, w, acts).users, g, password);
    if p.Cleared? {
      EventsGrow(h, w, acts, a, st.approve, id, g);
      assert LoginAt(h, w, acts + [a], |acts|, id, g);
      assert PhaseStory(h, w, acts + [a], id, Cleared(g), st.(login := |acts|));
    } else {
      NoStory(h, w, acts + [a], id, p);
    }
  }

  lemma RedeemStory(h: string -> string, w: World, acts: seq<Action>, id: nat, req: TokenRequest)
    requires CodesJustified(h, w, acts) && id !in Run(h, w, acts).procs
    ensures var s := Run(h, w, acts);
            HasStory(h, w, acts + [TakeCode(id, req)], id, AfterTakeCode(s.codes, s.now, req))
  {
    var s := Run(h, w, acts);
    var p := AfterTakeCode(s.codes, s.now, req);
    if p.Taken? && p.entry.Some? {
      FoundStory(h, w, acts, id, req);
    } else {
      assert PhaseStory(h, w, acts + [TakeCode(id, req)], id, p, Blank(0));
    }
  }

  /** A code that is found brings its own history along. */
  lemma FoundStory(h: string -> string, w: World, acts: seq<Action>, id: nat, req: TokenRequest)
    requires CodesJustified(h, w, acts) && id !in Run(h, w, acts).procs
    requires WellShaped(req) && req.code.value in Run(h, w, acts).codes
    ensures var s := Run(h, w, acts);
            HasStory(h, w, acts + [TakeCode(id, req)], id, Taken(Some(s.codes[req.code.value]), req, s.now))
  {
    var s, a, c := Run(h, w, acts), TakeCode(id, req), req.code.value;
    AtNow(h, w, acts, a);
    var st :| Issued(h, w, acts, st) && st.code == c && st.auth == s.codes[c];
    IssuedGrows(h, w, acts, a, st);
    assert PhaseStory(h, w, acts + [a], id, Taken(Some(s.codes[c]), req, s.now),
                      st.(take := |acts|, redeemId := id, req := req));
  }

  lemma GrantStory(h: string -> string, w: World, acts: seq<Action>, id: nat, entry: Option<AuthCode>, req: TokenRequest, at: nat)
    requires HasStory(h, w, acts, id, Taken(entry, req, at)) && InPhase(Run(h, w, acts), id, Taken(entry, req, at))
    ensures HasStory(h, w, acts + [CheckGrant(id)], id, AfterCheckGrant(h, Run(h, w, acts).now, entry, req))
  {
    var now, a := Run(h, w, acts).now, CheckGrant(id);
    var p := AfterCheckGrant(h, now, entry, req);
    CheckGrantSound(h, now, entry, req);
    if p.Done? {
      assert PhaseStory(h, w, acts + [a], id, p, Blank(0));
    } else {
      CheckedStory(h, w, acts, id, entry.value, req, at, p);
    }
  }

  lemma CheckedStory(
    h: string -> string, w: World, acts: seq<Action>, id: nat, auth: AuthCode, req: TokenRequest, at: nat, p: Phase)
    requires HasStory(h, w, acts, id, Taken(Some(auth), req, at))
    requires InPhase(Run(h, w, acts), id, Taken(Some(auth), req, at))
    requires GrantHonoured(h, Run(h, w, acts).now, auth, req)
    requires p == if auth.challenge.None? then NeedsClient(auth, req) else Accepted(auth, req)
    ensures HasStory(h, w, acts + [CheckGrant(id)], id, p)
  {
    var a := CheckGrant(id);
    AtNow(h, w, acts, a);
    var st :| PhaseStory(h, w, acts, id, Taken(Some(auth), req, at), st);
    RedeemedGrows(h, w, acts, a, st);
    AtGrows(h, w, acts, a, st.take);
    var st' := st.(check := |acts|);
    assert Redeemed(h, w, acts + [a], st');
    assert PhaseStory(h, w, acts + [a], id, p, st');
  }

  lemma SecretStory(h: string -> string, w: World, acts: seq<Action>, id: nat, auth: AuthCode, req: TokenRequest)
    requires HasStory(h, w, acts, id, NeedsClient(auth, req)) && InPhase(Run(h, w, acts), id, NeedsClient(auth, req))
    ensures HasStory(h, w, acts + [CheckClient(id)], id, AfterCheckClient(Run(h, w, acts).clients, auth, req))
  {
    var s, a := Run(h, w, acts), CheckClient(id);
    AtNow(h, w, acts, a);
    var p := AfterCheckClient(s.clients, auth, req);
    var st :| PhaseStory(h, w, acts, id, NeedsClient(auth, req), st);
    if p.Accepted? {
      AcceptsSecret(s.clients, auth.clientId, req.secret);
      VettedNow(h, w, acts, st);
      assert PhaseStory(h, w, acts + [a], id, p, st.(client := |acts|));
    } else {
      NoStory(h, w, acts + [a], id, p);
    }
  }

  lemma VettedNow(h: string -> string, w: World, acts: seq<Action>, st: Story)
    requires Checked(h, w, acts, st) && InPhase(Run(h, w, acts), st.redeemId, NeedsClient(st.auth, st.req))
    requires SecretPresented(Run(h, w, acts).clients, st.auth.clientId, st.req.secret)
    ensures Vetted(h, w, acts + [CheckClient(st.redeemId)], st.(client := |acts|))
  {
    var a := CheckClient(st.redeemId);
    AtNow(h, w, acts, a);
    CheckedGrows(h, w, acts, a, st);
    assert Checked(h, w, acts + [a], st.(client := |acts|));
  }

  /** What a step can do to one request. */
  ghost predicate Moved(h: string -> string, s: World, a: Action, id: nat, p: Phase) {
    match a
    case LoginPost(pid, form) => pid == id && id !in s.procs && p == AfterLoginPost(s.users, form)
    case LoginGet(pid, query) => pid == id && id !in s.procs && p == AfterLoginGet(s.clients, query)
    case TakeCode(pid, req) => pid == id && id !in s.procs && p == AfterTakeCode(s.codes, s.now, req)
    case LookupClient(pid) =>
      pid == id && id in s.procs && s.procs[id].PasswordAccepted? && p == AfterLookupClient(s.clients, s.procs[id].grant)
    case CheckBasic(pid) =>
      pid == id && id in s.procs && s.procs[id].ClientAccepted?
      && p == AfterCheckBasic(s.users, s.procs[id].grant, s.procs[id].password)
    case CheckGrant(pid) =>
      pid == id && id in s.procs && s.procs[id].Taken? && p == AfterCheckGrant(h, s.now, s.procs[id].entry, s.procs[id].req)
    case CheckClient(pid) =>
      pid == id && id in s.procs && s.procs[id].NeedsClient?
      && p == AfterCheckClient(s.clients, s.procs[id].auth, s.procs[id].req)
    case _ => p.Identified? || p.Done?
  }

  lemma PhaseOrigin(h: string -> string, s: World, a: Action, id: nat)
    requires id in Step(h, s, a).procs
    requires !(id in s.procs && Step(h, s, a).procs[id] == s.procs[id])
    ensures Moved(h, s, a, id, Step(h, s, a).procs[id])
  {
  }

  /** The story of the one request that moved. */
  lemma MovedStory(h: string -> string, w: World, acts: seq<Action>, a: Action, id: nat, p: Phase)
    requires CodesJustified(h, w, acts)
    requires var s := Run(h, w, acts); id in s.procs ==> HasStory(h, w, acts, id, s.procs[id])
    requires Moved(h, Run(h, w, acts), a, id, p)
    ensures HasStory(h, w, acts + [a], id, p)
  {
    match a
    case LoginPost(_, form) => LoginPostStory(h, w, acts, id, form);
    case LoginGet(_, query) => LoginGetStory(h, w, acts, id, query);
    case TakeCode(_, req) => RedeemStory(h, w, acts, id, req);
    case LookupClient(_) => ProceededStory(h, w, acts, a, id, p);
    case CheckBasic(_) => ProceededStory(h, w, acts, a, id, p);
    case CheckGrant(_) => ProceededStory(h, w, acts, a, id, p);
    case CheckClient(_) => ProceededStory(h, w, acts, a, id, p);
    case _ => NoStory(h, w, acts + [a], id, p);
  }

  lemma NoStory(h: string -> string, w: World, acts: seq<Action>, id: nat, p: Phase)
    requires p.Identified? || p.Done?
    ensures HasStory(h, w, acts, id, p)
  {
    assert PhaseStory(h, w, acts, id, p, Blank(0));
  }

  /** The same for a request that was under way. */
  lemma ProceededStory(h: string -> string, w: World, acts: seq<Action>, a: Action, id: nat, p: Phase)
    requires a.LookupClient? || a.CheckBasic? || a.CheckGrant? || a.CheckClient?
    requires var s := Run(h, w, acts); id in s.procs ==> HasStory(h, w, acts, id, s.procs[id])
    requires Moved(h, Run(h, w, acts), a, id, p)
    ensures HasStory(h, w, acts + [a], id, p)
  {
    var q := Run(h, w, acts).procs[id];
    if a.LookupClient? {
      LookupClientStory(h, w, acts, id, q.grant);
    } else if a.CheckBasic? {
      CheckBasicStory(h, w, acts, id, q.grant, q.password);
    } else if a.CheckGrant? {
      GrantStory(h, w, acts, id, q.entry, q.req, q.at);
    } else {
      SecretStory(h, w, acts, id, q.auth, q.req);
    }
  }

  lemma ProcsStep(h: string -> string, w: World, acts: seq<Action>, a: Action)
    requires CodesJustified(h, w, acts) && ProcsJustified(h, w, acts)
    ensures ProcsJustified(h, w, acts + [a])
  {
    var s, s' := Run(h, w, acts), Run(h, w, acts + [a]);
    RunSnoc(h, w, acts, a);
    forall id | id in s'.procs ensures exists st :: PhaseStory(h, w, acts + [a], id, s'.procs[id], st) {
      if id in s.procs && s'.procs[id] == s.procs[id] {
        var st :| PhaseStory(h, w, acts, id, s.procs[id], st);
        PhaseStoryGrows(h, w, acts, a, id, s.procs[id], st);
      } else {
        PhaseOrigin(h, s, a, id);
        MovedStory(h, w, acts, a, id, s'.procs[id]);
      }
    }
  }

  ghost predicate HasTokenStory(h: string -> string, w: World, acts: seq<Action>, t: string, info: TokenInfo) {
    exists st :: TokenStory(h, w, acts, t, info, st)
  }

  lemma MintStory(h: string -> string, w: World, acts: seq<Action>, id: nat, random: string, auth: AuthCode, req: TokenRequest)
    requires HasStory(h, w, acts, id, Accepted(auth, req)) && InPhase(Run(h, w, acts), id, Accepted(auth, req))
    ensures HasTokenStory(h, w, acts + [MintToken(id, random)], TokenName(random),
                          TokenInfo(auth.username, Run(h, w, acts).now))
  {
    var a := MintToken(id, random);
    var st :| PhaseStory(h, w, acts, id, Accepted(auth, req), st);
    PhaseStoryGrows(h, w, acts, a, id, Accepted(auth, req), st);
    AtNow(h, w, acts, a);
    var st' := st.(mint := |acts|, random := random);
    assert TokenStory(h, w, acts + [a], TokenName(random), TokenInfo(auth.username, Run(h, w, acts).now), st');
  }

  lemma TokenStoryGrows(h: string -> string, w: World, acts: seq<Action>, a: Action, t: string, info: TokenInfo)
    requires HasTokenStory(h, w, acts, t, info)
    ensures HasTokenStory(h, w, acts + [a], t, info)
  {
    var st :| TokenStory(h, w, acts, t, info, st);
    MintedGrows(h, w, acts, a, st);
    AtGrows(h, w, acts, a, st.mint);
    assert TokenStory(h, w, acts + [a], t, info, st);
  }

  lemma OldTokenStory(h: string -> string, w: World, acts: seq<Action>, a: Action, t: string)
    requires TokensJustified(h, w, acts) && t in Run(h, w, acts).tokens
    ensures HasTokenStory(h, w, acts + [a], t, Run(h, w, acts).tokens[t])
  {
    TokenStoryGrows(h, w, acts, a, t, Run(h, w, acts).tokens[t]);
  }

  lemma NewTokenStory(h: string -> string, w: World, acts: seq<Action>, a: Action)
    requires ProcsJustified(h, w, acts) && a.MintToken?
    requires a.id in Run(h, w, acts).procs && Run(h, w, acts).procs[a.id].Accepted?
    ensures var s := Run(h, w, acts);
            HasTokenStory(h, w, acts + [a], TokenName(a.random), TokenInfo(s.procs[a.id].auth.username, s.now))
  {
    var p := Run(h, w, acts).procs[a.id];
    assert HasStory(h, w, acts, a.id, p);
    MintStory(h, w, acts, a.id, a.random, p.auth, p.req);
  }

  lemma TokensStep(h: string -> string, w: World, acts: seq<Action>, a: Action)
    requires ProcsJustified(h, w, acts) && TokensJustified(h, w, acts)
    ensures TokensJustified(h, w, acts + [a])
  {
    var s, s' := Run(h, w, acts), Run(h, w, acts + [a]);
    RunSnoc(h, w, acts, a);
    forall t | t in s'.tokens ensures HasTokenStory(h, w, acts + [a], t, s'.tokens[t]) {
      if t in s.tokens && s'.tokens[t] == s.tokens[t] {
        OldTokenStory(h, w, acts, a, t);
      } else {
        TokenOrigin(h, s, a, t);
        NewTokenStory(h, w, acts, a);
      }
    }
  }

  ghost predicate Justified(h: string -> string, w: World, acts: seq<Action>) {
    CodesJustified(h, w, acts) && ProcsJustified(h, w, acts) && TokensJustified(h, w, acts)
  }

  lemma JustifiedStep(h: string -> string, w: World, acts: seq<Action>, a: Action)
    requires Justified(h, w, acts)
    ensures Justified(h, w, acts + [a])
  {
    CodesStep(h, w, acts, a);
    ProcsStep(h, w, acts, a);
    TokensStep(h, w, acts, a);
  }

  lemma {:induction false} RunJustified(h: string -> string, w: World, acts: seq<Action>)
    requires Initial(w)
    ensures Justified(h, w, acts)
  {
    if acts == [] {
      assert Run(h, w, acts) == w;
    } else {
      var n := |acts| - 1;
      RunJustified(h, w, acts[..n]);
      JustifiedStep(h, w, acts[..n], acts[n]);
      assert acts == acts[..n] + [acts[n]];
    }
  }

  /**
    * In every interleaving, every stored token was earned: a new request authenticated its user against the store of an
    * earlier instant, its client allowed the redirect target it had asked for, the code was stored for that request, a new
    * token request took that entry, and it passed the check as the client the code was issued to, at an age of at most
    * 300 s, with the matching verifier (or the client's secret), in that order.
    */
  lemma TokenProvenance(h: string -> string, w: World, acts: seq<Action>, t: string)
    requires Initial(w) && t in Run(h, w, acts).tokens
    ensures exists st :: TokenStory(h, w, acts, t, Run(h, w, acts).tokens[t], st)
  {
    RunJustified(h, w, acts);
  }

  lemma IssueEffect(h: string -> string, s: World, id: nat, c: string, g: Grant)
    requires InPhase(s, id, Cleared(g))
    ensures var after := Step(h, s, IssueCode(id, c));
            && after.procs == s.procs[id := Done(Redirected(g.redirectUri, c))]
            && after.codes == s.codes[c := AuthCode(g.username, g.clientId, s.now, g.challenge, g.challengeMethod)]
  {
  }

  /** The code of a story went to the approved redirect target, in the answer to that request only. */
  lemma CodeSentToTarget(h: string -> string, w: World, acts: seq<Action>, st: Story)
    requires Issued(h, w, acts, st)
    ensures var before, after := At(h, w, acts, st.issue), At(h, w, acts, st.issue + 1);
            && after.procs == before.procs[st.loginId := Done(Redirected(st.grant.redirectUri, st.code))]
            && after.codes == before.codes[st.code := st.auth]
  {
    assert acts[..st.issue + 1] == acts[..st.issue] + [acts[st.issue]];
    RunSnoc(h, w, acts[..st.issue], acts[st.issue]);
    IssueEffect(h, At(h, w, acts, st.issue), st.loginId, st.code, st.grant);
  }
}
