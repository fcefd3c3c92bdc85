/** Across components: the CLI edits the htpasswd secret, the watcher reloads it, the login endpoints and userinfo answer from it. */
module Accounts {
  import opened Prelude
  import opened Text
  import opened UserStore
  import opened Htpasswd
  import opened HtpasswdAnswers
  import opened HtpasswdPromises
  import opened OAuth
  import opened OAuthTerms

  /** The request names a client and a redirect target that the client allows. */
  ghost predicate ClientOk(w: World, form: LoginForm) {
    && form.clientId.Some? && form.redirectUri.Some?
    && TargetRegistered(w.clients, form.clientId.value, form.redirectUri.value)
  }

  /** What the server makes of a Basic header for this name and password: it splits at the first colon. */
  function BasicOf(username: string, password: string): (b: BasicHeader)
    ensures b.Basic?
    ensures b.user + ":" + b.password == username + ":" + password && ':' !in b.user
    ensures if ':' in username then |b.user| < |username| else b == Basic(username, password)
  {
    var text := username + [':'] + password;
    var k := ColonIndex(text);
    assert text[|username|] == ':';
    ColonIndexAbsent(text);
    assert forall i :: 0 <= i < |username| ==> text[i] == username[i];
    assert forall i :: 0 <= i < k ==> text[..k][i] == text[i];
    assert ':' !in username ==> text[..|username|] == username && text[|username| + 1..] == password;
    assert ':' !in username ==> k == |username| by {
      if ':' !in username { ColonIndexUnique(text, |username|); }
    }
    assert text == text[..k] + ":" + text[k + 1..];
    Basic(text[..k], text[k + 1..])
  }

  function GrantFor(form: LoginForm, username: string): (g: Grant)
    requires form.clientId.Some? && form.redirectUri.Some?
  {
    Grant(username, form.clientId.value, form.redirectUri.value, form.challenge, form.challengeMethod)
  }

  /** The same request through GET with a Basic header. */
  function AsQuery(form: LoginForm): (q: LoginQuery) {
    LoginQuery(form.clientId, form.redirectUri, BasicOf(form.username, form.password), false,
               form.challenge, form.challengeMethod)
  }

  function PostLogin(h: string -> string, w: World, id: nat, form: LoginForm): (p: Phase)
    requires id !in w.procs
  {
    var done := Step(h, Step(h, w, LoginPost(id, form)), LookupClient(id)).procs;
    if id in done then done[id] else Done(BadRequest)
  }

  function GetLogin(h: string -> string, w: World, id: nat, form: LoginForm): (p: Phase)
    requires id !in w.procs
  {
    var done := Step(h, Step(h, w, LoginGet(id, AsQuery(form))), CheckBasic(id)).procs;
    if id in done then done[id] else Done(BadRequest)
  }

  lemma PostFlow(h: string -> string, w: World, id: nat, form: LoginForm)
    requires id !in w.procs
    ensures var p := PostLogin(h, w, id, form);
            if ClientOk(w, form) && form.username != [] && Stored(w.users, form.username, form.password)
            then p == Cleared(GrantFor(form, form.username)) else p.Done?
    ensures PostLogin(h, w, id, form) == PostAnswer(w, form)
  {
    PostLoginMeaning(h, w, id, form);
  }

  lemma GetFlow(h: string -> string, w: World, id: nat, form: LoginForm)
    requires id !in w.procs
    ensures var p, b := GetLogin(h, w, id, form), BasicOf(form.username, form.password);
            if ClientOk(w, form) && Stored(w.users, b.user, b.password)
            then p == Cleared(GrantFor(form, b.user)) else p.Done?
  {
    GetLoginMeaning(h, w, id, AsQuery(form));
  }

  /** The two forms come to the same decision: both refuse, or both clear the same grant. */
  predicate SameDecision(p: Phase, q: Phase) {
    if p.Cleared? || q.Cleared? then p == q else p.Done? && q.Done?
  }

  /**
    * The two forms decide alike exactly when the client check fails anyway, or else: for a name without a colon, when it
    * is not empty or no stored entry has the empty name and this password; for a name with a colon, which a Basic header
    * cannot carry (section 2 of RFC 7617), when neither it nor the name the header turns it into is stored with its
    * password.
    */
  lemma LoginFlowsAgree(h: string -> string, w: World, id: nat, form: LoginForm)
    requires id !in w.procs
    ensures SameDecision(PostLogin(h, w, id, form), GetLogin(h, w, id, form)) <==>
            || !ClientOk(w, form)
            || if ':' !in form.username then form.username != [] || !Stored(w.users, [], form.password)
               else
                 var b := BasicOf(form.username, form.password);
                 !Stored(w.users, form.username, form.password) && !Stored(w.users, b.user, b.password)
  {
    PostFlow(h, w, id, form);
    GetFlow(h, w, id, form);
  }

  /** Over a user list read from a file, a name with a colon never gets in by POST; GET reads it as another name. */
  lemma ColonNames(h: string -> string, w: World, id: nat, data: string, form: LoginForm)
    requires id !in w.procs && ':' in form.username && w.users == FromHtpasswd(data)
    ensures !PostLogin(h, w, id, form).Cleared?
    ensures var b := BasicOf(form.username, form.password);
            GetLogin(h, w, id, form).Cleared? <==> ClientOk(w, form) && Authenticate(w.users, b.user, b.password).Some?
  {
    PostFlow(h, w, id, form);
    GetFlow(h, w, id, form);
    CleanNamesOnly(data, form.username, form.password);
  }

  /** A stored user without a name is let in by GET and turned away by POST. */
  lemma NamelessEntry(h: string -> string, w: World, id: nat, form: LoginForm)
    requires id !in w.procs && ClientOk(w, form) && form.username == []
    requires Authenticate(w.users, [], form.password).Some?
    ensures PostLogin(h, w, id, form) == Done(LoginPage)
    ensures GetLogin(h, w, id, form) == Cleared(GrantFor(form, []))
  {
    GetFlow(h, w, id, form);
  }

  /** The file `:pw` has such a user. */
  lemma NamelessUser(h: string -> string, w: World, id: nat, form: LoginForm)
    requires id !in w.procs && ClientOk(w, form) && form.username == [] && form.password == "pw"
    ensures var reloaded := w.(users := FromHtpasswd(":pw"));
            && Step(h, w, Reload(":pw")) == reloaded
            && PostLogin(h, reloaded, id, form) == Done(LoginPage)
            && GetLogin(h, reloaded, id, form) == Cleared(GrantFor(form, []))
  {
    var users := FromHtpasswd(":pw");
    NamelessLine();
    assert Authenticate(users, [], "pw").Some? by { assert users[0] in users; }
    NamelessEntry(h, w.(users := users), id, form);
  }

  lemma NamelessLine()
    ensures FromHtpasswd(":pw") == [UserEntry("", "pw", None, None)]
  {
    FromHtpasswdPieces(":pw");
    SplitOneLine(":pw");
    ParseSingle(":pw");
    var line := ":pw";
    BlankIff(line);
    assert line[0] == ':' && line[..0] == "" && line[1..] == "pw";
    assert Trim("") == "" && Trim("pw") == "pw";
  }

  /** Logging in with `q`, by either form. */
  predicate Enters(h: string -> string, w: World, id: nat, form: LoginForm, q: string)
    requires id !in w.procs
  {
    PostLogin(h, w, id, form.(password := q)).Cleared? || GetLogin(h, w, id, form.(password := q)).Cleared?
  }

  lemma EntersIff(h: string -> string, w: World, id: nat, form: LoginForm, q: string)
    requires id !in w.procs && ClientOk(w, form) && ValidUser(form.username)
    ensures Enters(h, w, id, form, q) <==> Authenticate(w.users, form.username, q).Some?
    ensures PostLogin(h, w, id, form.(password := q)).Cleared? <==> GetLogin(h, w, id, form.(password := q)).Cleared?
  {
    var form' := form.(password := q);
    assert ClientOk(w, form');
    PostFlow(h, w, id, form');
    GetFlow(h, w, id, form');
  }

  /**
    * After `user add` and the reload, the user gets in with the new password and with no other, by either form, exactly
    * when no padded line with another password was there.
    */
  lemma AddedUserLogsIn(h: string -> string, w: World, id: nat, text: string, p: string, form: LoginForm)
    requires id !in w.procs && ClientOk(w, form) && ValidUser(form.username) && '\n' !in p
    ensures var reloaded := Step(h, w, Reload(AddText(text, form.username, p)));
            && ((forall q :: Enters(h, reloaded, id, form, q) <==> q == Trim(p)) <==>
                NoStaleShadow(EditorLines(text), form.username, Trim(p)))
            && PostLogin(h, reloaded, id, form.(password := Trim(p))).Cleared?
            && GetLogin(h, reloaded, id, form.(password := Trim(p))).Cleared?
  {
    var reloaded := Step(h, w, Reload(AddText(text, form.username, p)));
    assert ClientOk(reloaded, form);
    AddSetsPassword(text, form.username, p);
    ReadAdded(text, form.username, p);
    UpsertHasEntry(EditorLines(text), form.username, p);
    forall q ensures Enters(h, reloaded, id, form, q) <==> Authenticate(reloaded.users, form.username, q).Some? {
      EntersIff(h, reloaded, id, form, q);
    }
    EntersIff(h, reloaded, id, form, Trim(p));
    if forall q :: Enters(h, reloaded, id, form, q) <==> q == Trim(p) {
      assert OnlyPassword(reloaded.users, form.username, Trim(p));
    }
  }

  /** After `user delete` and the reload, the user is locked out of both forms, exactly when no padded line was there. */
  lemma DeletedUserLockedOut(h: string -> string, w: World, id: nat, text: string, form: LoginForm)
    requires id !in w.procs && ClientOk(w, form) && ValidUser(form.username) && DeleteText(text, form.username).Some?
    ensures var reloaded := Step(h, w, Reload(DeleteText(text, form.username).value));
            (forall q :: !Enters(h, reloaded, id, form, q)) <==> NoShadow(EditorLines(text), form.username)
  {
    var reloaded := Step(h, w, Reload(DeleteText(text, form.username).value));
    assert ClientOk(reloaded, form);
    DeleteRemovesUser(text, form.username);
    forall q ensures Enters(h, reloaded, id, form, q) <==> Authenticate(reloaded.users, form.username, q).Some? {
      EntersIff(h, reloaded, id, form, q);
    }
    if forall q :: !Enters(h, reloaded, id, form, q) {
      assert NoPassword(reloaded.users, form.username);
    }
  }

  /** A reload forgets e-mail addresses and groups: afterwards everyone, the built-in admin included, has the default profile. */
  lemma ReloadedProfile(h: string -> string, w: World, data: string, username: string)
    ensures AfterFetchProfile(Step(h, w, Reload(data)).users, username) ==
            Done(UserInfo(username, username + "@ocp-sim.test", ["system:authenticated"]))
  {
    var users := FromHtpasswd(data);
    if Lookup(users, username).Some? {
      var e := Lookup(users, username).value;
      assert e in users;
      ParsedBare(RustLines(data), e);
    }
  }
}
