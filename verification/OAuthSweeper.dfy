/** The periodic sweeper: when it can be noticed at all, and how long entries stay. */
module OAuthSweeper {
  import opened Prelude
  import opened UserStore
  import opened OAuth
  import opened OAuthTerms

  predicate IsSweep(a: Action) {
    a.SweepCodes? || a.SweepTokens?
  }

  /** The same run with the sweeper switched off. */
  function Unswept(acts: seq<Action>): (r: seq<Action>) {
    if acts == [] then []
    else
      var n := |acts| - 1;
      if IsSweep(acts[n]) then Unswept(acts[..n]) else Unswept(acts[..n]) + [acts[n]]
  }

  /** What the clients have been told so far. */
  function Answers(w: World): (r: map<nat, Outcome>) {
    map id | id in w.procs && w.procs[id].Done? :: w.procs[id].outcome
  }

  /** The right client presents the code, and does not present a wrong verifier. */
  predicate RightParty(h: string -> string, auth: AuthCode, req: TokenRequest) {
    && ClientOf(req) == Some(auth.clientId)
    && (|| auth.challenge.None? || req.verifier.None?
        || VerifyPkce(h, req.verifier.value, auth.challenge.value, auth.challengeMethod.GetOr("S256")))
  }

  /**
    * A code taken and checked by the right party at an age of exactly 300 s: the handler still honours it (`>`), the
    * sweeper would already have dropped it (`<`).
    */
  predicate BoundaryCheck(h: string -> string, w: World, a: Action) {
    && a.CheckGrant? && a.id in w.procs && w.procs[a.id].Taken? && w.procs[a.id].entry.Some?
    && w.procs[a.id].at == w.now
    && w.now - w.procs[a.id].entry.value.created == CODE_TTL
    && RightParty(h, w.procs[a.id].entry.value, w.procs[a.id].req)
  }

  ghost predicate NoBoundaryCheck(h: string -> string, w: World, acts: seq<Action>) {
    forall i :: 0 <= i < |acts| ==> !BoundaryCheck(h, At(h, w, acts, i), acts[i])
  }

  // ---- the simulation ----

  /** Same phase, except that the swept server may have missed a code that was already 300 s old. */
  predicate PhaseMatch(p: Phase, q: Phase, now: nat) {
    || p == q
    || (&& p.Taken? && q.Taken? && p.entry.None? && q.entry.Some? && p.req == q.req && p.at == q.at
        && q.at <= now && q.at - q.entry.value.created >= CODE_TTL)
  }

  /** `v` is the swept server, `w` the unswept one: `w` only has additional, expired entries. */
  ghost predicate Matches(v: World, w: World) {
    && v.now == w.now && v.users == w.users && v.clients == w.clients
    && v.procs.Keys == w.procs.Keys
    && (forall id :: id in v.procs ==> PhaseMatch(v.procs[id], w.procs[id], w.now))
    && CodesMatch(v.codes, w.codes, w.now)
    && TokensMatch(v.tokens, w.tokens, w.now)
  }

  ghost predicate CodesMatch(v: map<string, AuthCode>, w: map<string, AuthCode>, now: nat) {
    && (forall c :: c in v ==> c in w && v[c] == w[c])
    && (forall c :: c in w && c !in v ==> now - w[c].created >= CODE_TTL)
  }

  ghost predicate TokensMatch(v: map<string, TokenInfo>, w: map<string, TokenInfo>, now: nat) {
    && (forall t :: t in v ==> t in w && v[t] == w[t])
    && (forall t :: t in w && t !in v ==> now - w[t].created >= TOKEN_TTL)
  }

  lemma SweepMatches(h: string -> string, v: World, w: World, a: Action)
    requires Matches(v, w) && IsSweep(a)
    ensures Matches(Step(h, v, a), w)
  {
  }

  lemma UpdateMatches(v: World, w: World, id: nat, p: Phase, q: Phase)
    requires Matches(v, w) && PhaseMatch(p, q, w.now)
    ensures Matches(v.(procs := v.procs[id := p]), w.(procs := w.procs[id := q]))
  {
  }

  lemma TakeMatches(h: string -> string, v: World, w: World, id: nat, req: TokenRequest)
    requires Matches(v, w)
    ensures Matches(Step(h, v, TakeCode(id, req)), Step(h, w, TakeCode(id, req)))
  {
    if id !in v.procs {
      UpdateMatches(v, w, id, AfterTakeCode(v.codes, v.now, req), AfterTakeCode(w.codes, w.now, req));
    }
  }

  lemma CheckMatches(h: string -> string, v: World, w: World, id: nat)
    requires Matches(v, w) && !BoundaryCheck(h, w, CheckGrant(id))
    ensures Matches(Step(h, v, CheckGrant(id)), Step(h, w, CheckGrant(id)))
  {
    if id in v.procs && v.procs[id].Taken? {
      assert PhaseMatch(v.procs[id], w.procs[id], w.now);
      UpdateMatches(v, w, id, AfterCheckGrant(h, v.now, v.procs[id].entry, v.procs[id].req),
                    AfterCheckGrant(h, w.now, w.procs[id].entry, w.procs[id].req));
    } else if id in v.procs {
      assert PhaseMatch(v.procs[id], w.procs[id], w.now);
    }
  }

  lemma StartMatches(h: string -> string, v: World, w: World, a: Action)
    requires Matches(v, w) && (a.LoginPost? || a.LoginGet? || a.LookupToken?)
    ensures Matches(Step(h, v, a), Step(h, w, a))
  {
    match a
    case LoginPost(id, form) =>
      UpdateMatches(v, w, id, AfterLoginPost(v.users, form), AfterLoginPost(v.users, form));
    case LoginGet(id, query) =>
      UpdateMatches(v, w, id, AfterLoginGet(v.clients, query), AfterLoginGet(v.clients, query));
    case LookupToken(id, bearer, jwtUser) =>
      UpdateMatches(v, w, id, AfterLookupToken(v.tokens, v.now, bearer, jwtUser),
                    AfterLookupToken(w.tokens, w.now, bearer, jwtUser));
  }

  /** Requests past their table look-up are in the very same phase on both sides. */
  lemma ProceedMatches(h: string -> string, v: World, w: World, a: Action)
    requires Matches(v, w) && (a.LookupClient? || a.CheckBasic? || a.CheckClient? || a.FetchProfile?)
    ensures Matches(Step(h, v, a), Step(h, w, a))
  {
    var id := a.id;
    if id in v.procs {
      assert PhaseMatch(v.procs[id], w.procs[id], w.now);
      var p := v.procs[id];
      match a
      case LookupClient(_) =>
        if p.PasswordAccepted? {
          UpdateMatches(v, w, id, AfterLookupClient(v.clients, p.grant), AfterLookupClient(v.clients, p.grant));
        }
      case CheckBasic(_) =>
        if p.ClientAccepted? {
          UpdateMatches(v, w, id, AfterCheckBasic(v.users, p.grant, p.password), AfterCheckBasic(v.users, p.grant, p.password));
        }
      case CheckClient(_) =>
        if p.NeedsClient? {
          UpdateMatches(v, w, id, AfterCheckClient(v.clients, p.auth, p.req), AfterCheckClient(v.clients, p.auth, p.req));
        }
      case FetchProfile(_) =>
        if p.Identified? {
          UpdateMatches(v, w, id, AfterFetchProfile(v.users, p.username), AfterFetchProfile(v.users, p.username));
        }
    }
  }

  /** Insertions hit both tables alike, expired left-overs included. */
  lemma InsertMatches(h: string -> string, v: World, w: World, a: Action)
    requires Matches(v, w) && (a.IssueCode? || a.MintToken?)
    ensures Matches(Step(h, v, a), Step(h, w, a))
  {
    var id := a.id;
    if id in v.procs {
      assert PhaseMatch(v.procs[id], w.procs[id], w.now);
      var p := v.procs[id];
      if a.IssueCode? && p.Cleared? {
        var done := Done(Redirected(p.grant.redirectUri, a.random));
        UpdateMatches(v, w, id, done, done);
      } else if a.MintToken? && p.Accepted? {
        var done := Done(TokenGranted(TokenName(a.random)));
        UpdateMatches(v, w, id, done, done);
      }
    }
  }

  lemma StepMatches(h: string -> string, v: World, w: World, a: Action)
    requires Matches(v, w) && !IsSweep(a) && !BoundaryCheck(h, w, a)
    ensures Matches(Step(h, v, a), Step(h, w, a))
  {
    match a
    case TakeCode(id, req) => TakeMatches(h, v, w, id, req);
    case CheckGrant(id) => CheckMatches(h, v, w, id);
    case LoginPost(_, _) => StartMatches(h, v, w, a);
    case LoginGet(_, _) => StartMatches(h, v, w, a);
    case LookupToken(_, _, _) => StartMatches(h, v, w, a);
    case Tick(_) =>
    case Reload(_) =>
    case SetClients(_) =>
    case IssueCode(_, _) => InsertMatches(h, v, w, a);
    case MintToken(_, _) => InsertMatches(h, v, w, a);
    case _ => ProceedMatches(h, v, w, a);
  }

  lemma {:induction false} RunMatches(h: string -> string, w: World, acts: seq<Action>)
    requires NoBoundaryCheck(h, w, Unswept(acts))
    ensures Matches(Run(h, w, acts), Run(h, w, Unswept(acts)))
  {
    if acts != [] {
      var n := |acts| - 1;
      var u := Unswept(acts[..n]);
      if IsSweep(acts[n]) {
        RunMatches(h, w, acts[..n]);
        SweepMatches(h, Run(h, w, acts[..n]), Run(h, w, u), acts[n]);
      } else {
        var full := u + [acts[n]];
        assert Unswept(acts) == full && full[..|u|] == u;
        forall i | 0 <= i < |u| ensures !BoundaryCheck(h, At(h, w, u, i), u[i]) {
          assert full[..i] == u[..i] && full[i] == u[i];
          assert !BoundaryCheck(h, At(h, w, full, i), full[i]);
        }
        RunMatches(h, w, acts[..n]);
        assert !BoundaryCheck(h, At(h, w, full, |u|), full[|u|]);
        StepMatches(h, Run(h, w, acts[..n]), Run(h, w, u), acts[n]);
      }
    }
  }

  /** Without a boundary redemption, no client can tell whether the sweeper ever ran. */
  lemma SweepsInvisible(h: string -> string, w: World, acts: seq<Action>)
    requires NoBoundaryCheck(h, w, Unswept(acts))
    ensures Answers(Run(h, w, acts)) == Answers(Run(h, w, Unswept(acts)))
  {
    RunMatches(h, w, acts);
    var v', w' := Run(h, w, acts), Run(h, w, Unswept(acts));
    forall id | id in v'.procs ensures v'.procs[id].Done? || w'.procs[id].Done? ==> v'.procs[id] == w'.procs[id] {
      assert PhaseMatch(v'.procs[id], w'.procs[id], w'.now);
    }
  }

  // ---- the other direction: a boundary redemption can be told apart ----

  ghost predicate SweepFree(acts: seq<Action>) {
    forall i :: 0 <= i < |acts| ==> !IsSweep(acts[i])
  }

  lemma {:induction false} UnsweptAppend(xs: seq<Action>, ys: seq<Action>)
    ensures Unswept(xs + ys) == Unswept(xs) + Unswept(ys)
  {
    if ys == [] {
      assert xs + ys == xs;
    } else {
      var n := |ys| - 1;
      assert (xs + ys)[..|xs + ys| - 1] == xs + ys[..n];
      UnsweptAppend(xs, ys[..n]);
    }
  }

  lemma {:induction false} UnsweptFree(u: seq<Action>)
    requires SweepFree(u)
    ensures Unswept(u) == u
  {
    if u != [] {
      UnsweptFree(u[..|u| - 1]);
      assert u == u[..|u| - 1] + [u[|u| - 1]];
    }
  }

  /** One extra sweep of the code table before the i-th action. */
  function WithSweep(u: seq<Action>, i: nat): (r: seq<Action>)
    requires i <= |u|
  {
    u[..i] + [SweepCodes] + u[i..]
  }

  lemma WithSweepUnswept(u: seq<Action>, i: nat)
    requires i <= |u| && SweepFree(u)
    ensures Unswept(WithSweep(u, i)) == u
  {
    UnsweptAppend(u[..i] + [SweepCodes], u[i..]);
    UnsweptAppend(u[..i], [SweepCodes]);
    assert [SweepCodes][..0] == [];
    assert Unswept([SweepCodes]) == [];
    UnsweptFree(u[..i]);
    UnsweptFree(u[i..]);
    assert u[..i] + u[i..] == u;
  }

  /** Requests never disappear, and none goes back to holding a freshly taken code. */
  lemma PhaseKept(h: string -> string, w: World, a: Action, id: nat)
    requires id in w.procs
    ensures id in Step(h, w, a).procs
    ensures Step(h, w, a).procs[id].Taken? ==> Step(h, w, a).procs[id] == w.procs[id] && a != CheckGrant(id)
  {
  }

  lemma TakeStarts(h: string -> string, w: World, a: Action, id: nat)
    requires id !in w.procs && id in Step(h, w, a).procs && Step(h, w, a).procs[id].Taken?
    ensures var p := Step(h, w, a).procs[id];
            && a == TakeCode(id, p.req) && WellShaped(p.req) && p.at == w.now
            && p.entry == if p.req.code.value in w.codes then Some(w.codes[p.req.code.value]) else None
  {
  }

  /** The redemption `p` of request `id` began at position `i` of the run. */
  ghost predicate TakenAt(h: string -> string, w: World, u: seq<Action>, i: nat, id: nat, p: Phase) {
    && i < |u| && p.Taken? && u[i] == TakeCode(id, p.req) && WellShaped(p.req)
    && id !in At(h, w, u, i).procs && At(h, w, u, i).now == p.at
    && p.entry == if p.req.code.value in At(h, w, u, i).codes then Some(At(h, w, u, i).codes[p.req.code.value]) else None
  }

  lemma AtSucc(h: string -> string, w: World, u: seq<Action>, i: nat)
    requires i < |u|
    ensures At(h, w, u, i + 1) == Step(h, At(h, w, u, i), u[i])
  {
    assert u[..i + 1] == u[..i] + [u[i]];
    RunSnoc(h, w, u[..i], u[i]);
  }

  lemma {:induction false} TakePoint(h: string -> string, w: World, u: seq<Action>, j: nat, id: nat, p: Phase) returns (i: nat)
    requires w.procs == map[] && j <= |u|
    requires id in At(h, w, u, j).procs && At(h, w, u, j).procs[id] == p && p.Taken?
    ensures i < j && TakenAt(h, w, u, i, id, p)
    ensures forall k :: i < k <= j ==> id in At(h, w, u, k).procs && At(h, w, u, k).procs[id] == p
    decreases j
  {
    AtSucc(h, w, u, j - 1);
    var s := At(h, w, u, j - 1);
    if id in s.procs {
      PhaseKept(h, s, u[j - 1], id);
      i := TakePoint(h, w, u, j - 1, id, p);
    } else {
      TakeStarts(h, s, u[j - 1], id);
      i := j - 1;
    }
  }

  lemma WithSweepPrefix(u: seq<Action>, i: nat, k: nat)
    requires i <= k <= |u|
    ensures WithSweep(u, i)[..k + 1] == u[..i] + [SweepCodes] + u[i..k]
  {
  }

  lemma SweepThenTake(h: string -> string, w: World, id: nat, p: Phase)
    requires p.Taken? && id !in w.procs && w.now == p.at && WellShaped(p.req)
    requires p.req.code.value in w.codes && w.now - w.codes[p.req.code.value].created >= CODE_TTL
    ensures var v := Step(h, Step(h, w, SweepCodes), TakeCode(id, p.req));
            id in v.procs && v.procs[id] == Taken(None, p.req, p.at)
  {
  }

  /** Sweeping at the boundary makes the redemption miss its code, and it stays missed until the check. */
  lemma {:induction false} Twin(h: string -> string, w: World, u: seq<Action>, i: nat, k: nat, id: nat, p: Phase)
    requires TakenAt(h, w, u, i, id, p) && i < k <= |u|
    requires p.entry.Some? && p.at - p.entry.value.created >= CODE_TTL
    requires forall m :: i < m <= k ==> id in At(h, w, u, m).procs && At(h, w, u, m).procs[id] == p
    ensures var v := Run(h, w, WithSweep(u, i)[..k + 1]);
            id in v.procs && v.procs[id] == Taken(None, p.req, p.at)
    decreases k
  {
    WithSweepPrefix(u, i, k);
    if k == i + 1 {
      assert u[i..k] == [u[i]];
      TwinStart(h, w, u, i, id, p);
    } else {
      Twin(h, w, u, i, k - 1, id, p);
      WithSweepPrefix(u, i, k - 1);
      var front := u[..i] + [SweepCodes] + u[i..k - 1];
      assert u[..i] + [SweepCodes] + u[i..k] == front + [u[k - 1]] by { assert u[i..k] == u[i..k - 1] + [u[k - 1]]; }
      TwinStep(h, w, u, front, k, id, p);
    }
  }

  lemma TwinStart(h: string -> string, w: World, u: seq<Action>, i: nat, id: nat, p: Phase)
    requires TakenAt(h, w, u, i, id, p) && p.entry.Some? && p.at - p.entry.value.created >= CODE_TTL
    ensures var v := Run(h, w, u[..i] + [SweepCodes] + [u[i]]);
            id in v.procs && v.procs[id] == Taken(None, p.req, p.at)
  {
    RunSnoc(h, w, u[..i], SweepCodes);
    RunSnoc(h, w, u[..i] + [SweepCodes], u[i]);
    SweepThenTake(h, At(h, w, u, i), id, p);
  }

  lemma TwinStep(h: string -> string, w: World, u: seq<Action>, front: seq<Action>, k: nat, id: nat, p: Phase)
    requires 0 < k <= |u| && p.Taken?
    requires id in At(h, w, u, k - 1).procs && id in At(h, w, u, k).procs && At(h, w, u, k).procs[id] == p
    requires id in Run(h, w, front).procs && Run(h, w, front).procs[id].Taken?
    ensures id in Run(h, w, front + [u[k - 1]]).procs
    ensures Run(h, w, front + [u[k - 1]]).procs[id] == Run(h, w, front).procs[id]
  {
    RunSnoc(h, w, front, u[k - 1]);
    AtSucc(h, w, u, k - 1);
    PhaseKept(h, At(h, w, u, k - 1), u[k - 1], id);
    TakenStays(h, Run(h, w, front), u[k - 1], id);
  }

  lemma TakenStays(h: string -> string, w: World, a: Action, id: nat)
    requires id in w.procs && w.procs[id].Taken? && a != CheckGrant(id)
    ensures id in Step(h, w, a).procs && Step(h, w, a).procs[id] == w.procs[id]
  {
  }

  /** Refused with invalid_grant on one side, and heading for any other answer on the other. */
  predicate Diverged(p: Phase, q: Phase) {
    && p == Done(TokenError(InvalidGrant))
    && (q.NeedsClient? || q.Accepted? || (q.Done? && q.outcome != TokenError(InvalidGrant)))
  }

  lemma {:induction false} StaysDiverged(h: string -> string, v: World, w: World, id: nat, acts: seq<Action>)
    requires id in v.procs && id in w.procs && Diverged(v.procs[id], w.procs[id])
    ensures var v', w' := Run(h, v, acts), Run(h, w, acts);
            id in v'.procs && id in w'.procs && Diverged(v'.procs[id], w'.procs[id])
  {
    if acts != [] {
      var n := |acts| - 1;
      StaysDiverged(h, v, w, id, acts[..n]);
      DivergedStep(h, Run(h, v, acts[..n]), Run(h, w, acts[..n]), id, acts[n]);
    }
  }

  lemma DoneStays(h: string -> string, w: World, id: nat, a: Action)
    requires id in w.procs && w.procs[id].Done?
    ensures id in Step(h, w, a).procs && Step(h, w, a).procs[id] == w.procs[id]
  {
  }

  lemma AcceptedStays(h: string -> string, w: World, id: nat, a: Action)
    requires id in w.procs && (w.procs[id].NeedsClient? || w.procs[id].Accepted?)
    ensures id in Step(h, w, a).procs
    ensures var p := Step(h, w, a).procs[id];
            p.NeedsClient? || p.Accepted? || (p.Done? && p.outcome != TokenError(InvalidGrant))
  {
  }

  lemma DivergedStep(h: string -> string, v: World, w: World, id: nat, a: Action)
    requires id in v.procs && id in w.procs && Diverged(v.procs[id], w.procs[id])
    ensures var v', w' := Step(h, v, a), Step(h, w, a);
            id in v'.procs && id in w'.procs && Diverged(v'.procs[id], w'.procs[id])
  {
    DoneStays(h, v, id, a);
    if w.procs[id].Done? {
      DoneStays(h, w, id, a);
    } else {
      AcceptedStays(h, w, id, a);
    }
  }

  /** If some code is redeemed at the boundary, one well-placed sweep changes what the client is told. */
  lemma SweepVisible(h: string -> string, w: World, u: seq<Action>, j: nat) returns (i: nat)
    requires w.procs == map[] && j < |u| && BoundaryCheck(h, At(h, w, u, j), u[j])
    ensures i <= |u| && Answers(Run(h, w, WithSweep(u, i))) != Answers(Run(h, w, u))
  {
    var id := u[j].id;
    var p := At(h, w, u, j).procs[id];
    i := TakePoint(h, w, u, j, id, p);
    Twin(h, w, u, i, j, id, p);
    var front, rest := WithSweep(u, i)[..j + 1], u[j + 1..];
    assert WithSweep(u, i) == front + [u[j]] + rest;
    assert u == u[..j] + [u[j]] + rest;
    CheckDiverges(h, Run(h, w, front), At(h, w, u, j), id);
    DivergedEnd(h, w, front, u[..j], u[j], rest, id);
  }

  /** Two runs that an action drives apart answer differently however they go on together. */
  lemma DivergedEnd(
    h: string -> string, w: World, xs: seq<Action>, ys: seq<Action>, a: Action, rest: seq<Action>, id: nat)
    requires var v', w' := Step(h, Run(h, w, xs), a), Step(h, Run(h, w, ys), a);
             id in v'.procs && id in w'.procs && Diverged(v'.procs[id], w'.procs[id])
    ensures Answers(Run(h, w, xs + [a] + rest)) != Answers(Run(h, w, ys + [a] + rest))
  {
    RunSnoc(h, w, xs, a);
    RunSnoc(h, w, ys, a);
    RunAppend(h, w, xs + [a], rest);
    RunAppend(h, w, ys + [a], rest);
    StaysDiverged(h, Run(h, w, xs + [a]), Run(h, w, ys + [a]), id, rest);
    AnswersDiffer(Run(h, w, xs + [a] + rest), Run(h, w, ys + [a] + rest), id);
  }

  lemma CheckDiverges(h: string -> string, v: World, w: World, id: nat)
    requires id in v.procs && v.procs[id].Taken? && v.procs[id].entry.None?
    requires BoundaryCheck(h, w, CheckGrant(id))
    ensures var v', w' := Step(h, v, CheckGrant(id)), Step(h, w, CheckGrant(id));
            id in v'.procs && id in w'.procs && Diverged(v'.procs[id], w'.procs[id])
  {
  }

  lemma AnswersDiffer(v: World, w: World, id: nat)
    requires id in v.procs && id in w.procs && Diverged(v.procs[id], w.procs[id])
    ensures Answers(v) != Answers(w)
  {
    assert id in Answers(v) && Answers(v)[id] == TokenError(InvalidGrant);
    assert id in Answers(w) ==> Answers(w)[id] != TokenError(InvalidGrant);
  }

  /**
    * A run answers the same under every placement of sweeps if and only if it contains no redemption at an age of
    * exactly 300 s by the code's own client, with the right verifier or without one.
    */
  lemma SweepsInvisibleIff(h: string -> string, w: World, u: seq<Action>)
    requires Initial(w) && SweepFree(u)
    ensures (forall acts :: Unswept(acts) == u ==> Answers(Run(h, w, acts)) == Answers(Run(h, w, u)))
            <==> NoBoundaryCheck(h, w, u)
  {
    if NoBoundaryCheck(h, w, u) {
      forall acts | Unswept(acts) == u ensures Answers(Run(h, w, acts)) == Answers(Run(h, w, u)) {
        SweepsInvisible(h, w, acts);
      }
    } else {
      var j :| 0 <= j < |u| && BoundaryCheck(h, At(h, w, u, j), u[j]);
      var i := SweepVisible(h, w, u, j);
      WithSweepUnswept(u, i);
    }
  }

  /** A login that succeeds stores a code of that instant. */
  lemma LoginStores(h: string -> string, w: World, form: LoginForm, code: string)
    requires Initial(w) && form.username != [] && form.clientId.Some? && form.redirectUri.Some?
    requires Authenticate(w.users, form.username, form.password).Some?
    requires TargetRegistered(w.clients, form.clientId.value, form.redirectUri.value)
    ensures var w3 := Step(h, Step(h, Step(h, w, LoginPost(1, form)), LookupClient(1)), IssueCode(1, code));
            w3 == w.(codes := map[code := AuthCode(form.username, form.clientId.value, w.now, form.challenge, form.challengeMethod)],
                     procs := map[1 := Done(Redirected(form.redirectUri.value, code))])
  {
    AllowsRegistered(w.clients, form.clientId.value, form.redirectUri.value);
  }

  /** Log in, wait exactly 300 s, redeem. */
  function BoundaryRun(form: LoginForm, code: string): (u: seq<Action>) {
    [LoginPost(1, form), LookupClient(1), IssueCode(1, code), Tick(CODE_TTL),
     TakeCode(2, TokenRequest("authorization_code", Some(code), form.clientId, None, [], None)), CheckGrant(2)]
  }

  /** Boundary redemptions exist for every user who can log in through a client without PKCE. */
  lemma BoundaryHappens(h: string -> string, w: World, form: LoginForm, code: string)
    requires Initial(w) && form.username != [] && form.clientId.Some? && form.redirectUri.Some?
    requires Authenticate(w.users, form.username, form.password).Some?
    requires TargetRegistered(w.clients, form.clientId.value, form.redirectUri.value)
    requires form.challenge.None?
    ensures SweepFree(BoundaryRun(form, code)) && !NoBoundaryCheck(h, w, BoundaryRun(form, code))
  {
    var u := BoundaryRun(form, code);
    LoginRun(h, w, form, code, u);
    WaitAndRedeem(h, w, u, code, u[4].req);
  }

  lemma WaitAndRedeem(h: string -> string, w: World, u: seq<Action>, code: string, req: TokenRequest)
    requires |u| == 6 && u[3] == Tick(CODE_TTL) && u[4] == TakeCode(2, req) && u[5] == CheckGrant(2)
    requires var s := At(h, w, u, 3);
             && code in s.codes && 2 !in s.procs && s.now == s.codes[code].created && s.codes[code].challenge.None?
             && WellShaped(req) && req.code == Some(code) && ClientOf(req) == Some(s.codes[code].clientId)
    ensures BoundaryCheck(h, At(h, w, u, 5), u[5])
  {
    AtSucc(h, w, u, 3);
    AtSucc(h, w, u, 4);
    RedeemAtBoundary(h, At(h, w, u, 3), code, req, CODE_TTL);
  }

  lemma LoginRun(h: string -> string, w: World, form: LoginForm, code: string, u: seq<Action>)
    requires Initial(w) && form.username != [] && form.clientId.Some? && form.redirectUri.Some?
    requires Authenticate(w.users, form.username, form.password).Some?
    requires TargetRegistered(w.clients, form.clientId.value, form.redirectUri.value)
    requires |u| >= 3 && u[0] == LoginPost(1, form) && u[1] == LookupClient(1) && u[2] == IssueCode(1, code)
    ensures At(h, w, u, 3) ==
            w.(codes := map[code := AuthCode(form.username, form.clientId.value, w.now, form.challenge, form.challengeMethod)],
               procs := map[1 := Done(Redirected(form.redirectUri.value, code))])
  {
    AtSucc(h, w, u, 0);
    AtSucc(h, w, u, 1);
    AtSucc(h, w, u, 2);
    LoginStores(h, w, form, code);
  }

  lemma RedeemAtBoundary(h: string -> string, w: World, code: string, req: TokenRequest, wait: nat)
    requires code in w.codes && 2 !in w.procs && w.now + wait == w.codes[code].created + CODE_TTL
    requires w.codes[code].challenge.None? && WellShaped(req) && req.code == Some(code) && ClientOf(req) == Some(w.codes[code].clientId)
    ensures BoundaryCheck(h, Step(h, Step(h, w, Tick(wait)), TakeCode(2, req)), CheckGrant(2))
  {
  }

  // ---- residence ----

  /** When the code table was last swept (the start of the server counts). */
  function LastCodeSweep(h: string -> string, w: World, acts: seq<Action>): (t: nat) {
    if acts == [] then w.now
    else if acts[|acts| - 1].SweepCodes? then Run(h, w, acts[..|acts| - 1]).now
    else LastCodeSweep(h, w, acts[..|acts| - 1])
  }

  function LastTokenSweep(h: string -> string, w: World, acts: seq<Action>): (t: nat) {
    if acts == [] then w.now
    else if acts[|acts| - 1].SweepTokens? then Run(h, w, acts[..|acts| - 1]).now
    else LastTokenSweep(h, w, acts[..|acts| - 1])
  }

  /** Every entry was younger than its lifetime at the last sweep, or came later. */
  ghost predicate Resident(s: World, codeSweep: nat, tokenSweep: nat) {
    && codeSweep <= s.now && tokenSweep <= s.now
    && (forall c :: c in s.codes ==> s.codes[c].created <= s.now && codeSweep < s.codes[c].created + CODE_TTL)
    && (forall t :: t in s.tokens ==> s.tokens[t].created <= s.now && tokenSweep < s.tokens[t].created + TOKEN_TTL)
  }

  lemma ResidentStep(h: string -> string, s: World, a: Action, codeSweep: nat, tokenSweep: nat)
    requires Resident(s, codeSweep, tokenSweep)
    ensures Resident(Step(h, s, a), if a.SweepCodes? then s.now else codeSweep,
                     if a.SweepTokens? then s.now else tokenSweep)
  {
  }

  lemma {:induction false} Residence(h: string -> string, w: World, acts: seq<Action>)
    requires Initial(w)
    ensures Resident(Run(h, w, acts), LastCodeSweep(h, w, acts), LastTokenSweep(h, w, acts))
  {
    if acts != [] {
      var n := |acts| - 1;
      Residence(h, w, acts[..n]);
      ResidentStep(h, Run(h, w, acts[..n]), acts[n], LastCodeSweep(h, w, acts[..n]), LastTokenSweep(h, w, acts[..n]));
    }
  }

  /** With sweeps at most 300 s apart, no code outlives 600 s and no token 86 700 s in the tables. */
  lemma ResidenceBound(h: string -> string, w: World, acts: seq<Action>)
    requires Initial(w)
    requires Run(h, w, acts).now - LastCodeSweep(h, w, acts) <= 300 * SECOND
    requires Run(h, w, acts).now - LastTokenSweep(h, w, acts) <= 300 * SECOND
    ensures var s := Run(h, w, acts);
            && (forall c :: c in s.codes ==> s.now - s.codes[c].created < 600 * SECOND)
            && (forall t :: t in s.tokens ==> s.now - s.tokens[t].created < 86_700 * SECOND)
  {
    Residence(h, w, acts);
  }
}
