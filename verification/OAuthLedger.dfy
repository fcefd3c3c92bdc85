/** Bookkeeping of authorization codes over whole runs: every issued code has exactly one fate. */
module OAuthLedger {
  import opened Prelude
  import opened OAuth
  import opened OAuthProvenance
  import opened OAuthTerms

  /** What can happen to a code: it enters by issuance and leaves in one of four ways. */
  datatype Fate = Issuance | Overwriting | Eviction | Rejection | Minting

  /** The request has the code out of the table and has not answered yet. */
  predicate Holds(p: Phase, c: string) {
    ((p.Taken? && p.entry.Some?) || p.NeedsClient? || p.Accepted?) && p.req.code == Some(c)
  }

  function Holders(procs: map<nat, Phase>, c: string): (r: set<nat>) {
    set id | id in procs && Holds(procs[id], c)
  }

  function Stored(codes: map<string, AuthCode>, c: string): (n: nat) {
    if c in codes then 1 else 0
  }

  predicate Happens(h: string -> string, w: World, a: Action, c: string, f: Fate) {
    match f
    case Issuance => a.IssueCode? && a.id in w.procs && w.procs[a.id].Cleared? && a.random == c
    case Overwriting => a.IssueCode? && a.id in w.procs && w.procs[a.id].Cleared? && a.random == c && c in w.codes
    case Eviction => a.SweepCodes? && c in w.codes && w.now - w.codes[c].created >= CODE_TTL
    case Rejection =>
      || (a.CheckGrant? && a.id in w.procs && w.procs[a.id].Taken? && Holds(w.procs[a.id], c)
          && AfterCheckGrant(h, w.now, w.procs[a.id].entry, w.procs[a.id].req).Done?)
      || (a.CheckClient? && a.id in w.procs && w.procs[a.id].NeedsClient? && Holds(w.procs[a.id], c)
          && AfterCheckClient(w.clients, w.procs[a.id].auth, w.procs[a.id].req).Done?)
    case Minting => a.MintToken? && a.id in w.procs && w.procs[a.id].Accepted? && Holds(w.procs[a.id], c)
  }

  function Count(b: bool): (n: nat) {
    if b then 1 else 0
  }

  /** How often a fate befell a code during a run. */
  function Tally(h: string -> string, w: World, acts: seq<Action>, c: string, f: Fate): (n: nat) {
    if acts == [] then 0
    else
      var n := |acts| - 1;
      Tally(h, w, acts[..n], c, f) + Count(Happens(h, Run(h, w, acts[..n]), acts[n], c, f))
  }

  lemma HoldersUpdate(procs: map<nat, Phase>, id: nat, p: Phase, c: string)
    ensures |Holders(procs[id := p], c)| ==
            |Holders(procs, c)| - Count(id in procs && Holds(procs[id], c)) + Count(Holds(p, c))
  {
    var before, after := Holders(procs, c), Holders(procs[id := p], c);
    if id in before {
      assert after == if Holds(p, c) then before else before - {id};
    } else {
      assert after == if Holds(p, c) then before + {id} else before;
    }
  }

  /** Copies of a code in the server's hands. */
  function Account(w: World, c: string): (n: nat) {
    Stored(w.codes, c) + |Holders(w.procs, c)|
  }

  function Departures(h: string -> string, w: World, a: Action, c: string): (n: nat) {
    Count(Happens(h, w, a, c, Overwriting)) + Count(Happens(h, w, a, c, Eviction)) +
    Count(Happens(h, w, a, c, Rejection)) + Count(Happens(h, w, a, c, Minting))
  }

  lemma BalanceIssue(h: string -> string, w: World, id: nat, random: string, c: string)
    ensures var a := IssueCode(id, random);
            Account(w, c) + Count(Happens(h, w, a, c, Issuance)) == Account(Step(h, w, a), c) + Departures(h, w, a, c)
  {
    if id in w.procs && w.procs[id].Cleared? {
      HoldersUpdate(w.procs, id, Done(Redirected(w.procs[id].grant.redirectUri, random)), c);
    }
  }

  lemma BalanceTake(h: string -> string, w: World, id: nat, req: TokenRequest, c: string)
    ensures var a := TakeCode(id, req); Account(w, c) == Account(Step(h, w, a), c) + Departures(h, w, a, c)
  {
    HoldersUpdate(w.procs, id, AfterTakeCode(w.codes, w.now, req), c);
  }

  lemma BalanceCheckGrant(h: string -> string, w: World, id: nat, c: string)
    ensures var a := CheckGrant(id); Account(w, c) == Account(Step(h, w, a), c) + Departures(h, w, a, c)
  {
    if id in w.procs && w.procs[id].Taken? {
      CheckGrantSound(h, w.now, w.procs[id].entry, w.procs[id].req);
      HoldersUpdate(w.procs, id, AfterCheckGrant(h, w.now, w.procs[id].entry, w.procs[id].req), c);
    }
  }

  lemma BalanceCheckClient(h: string -> string, w: World, id: nat, c: string)
    ensures var a := CheckClient(id); Account(w, c) == Account(Step(h, w, a), c) + Departures(h, w, a, c)
  {
    if id in w.procs && w.procs[id].NeedsClient? {
      HoldersUpdate(w.procs, id, AfterCheckClient(w.clients, w.procs[id].auth, w.procs[id].req), c);
    }
  }

  lemma BalanceMint(h: string -> string, w: World, id: nat, random: string, c: string)
    ensures var a := MintToken(id, random); Account(w, c) == Account(Step(h, w, a), c) + Departures(h, w, a, c)
  {
    HoldersUpdate(w.procs, id, Done(TokenGranted(TokenName(random))), c);
  }

  /** The action touches no code, neither in the table nor in a request. */
  predicate Neutral(a: Action) {
    !(a.IssueCode? || a.TakeCode? || a.CheckGrant? || a.CheckClient? || a.MintToken? || a.SweepCodes?)
  }

  lemma NeutralKeepsHolding(h: string -> string, w: World, a: Action, id: nat, c: string)
    requires Neutral(a)
    ensures (id in Step(h, w, a).procs && Holds(Step(h, w, a).procs[id], c)) <==> (id in w.procs && Holds(w.procs[id], c))
  {
  }

  lemma BalanceOther(h: string -> string, w: World, a: Action, c: string)
    requires Neutral(a)
    ensures Account(Step(h, w, a), c) == Account(w, c)
  {
    forall id: nat
      ensures (id in Step(h, w, a).procs && Holds(Step(h, w, a).procs[id], c)) <==> (id in w.procs && Holds(w.procs[id], c))
    {
      NeutralKeepsHolding(h, w, a, id, c);
    }
    assert Holders(Step(h, w, a).procs, c) == Holders(w.procs, c);
    NeutralCodes(h, w, a);
  }

  lemma NeutralCodes(h: string -> string, w: World, a: Action)
    requires Neutral(a)
    ensures Step(h, w, a).codes == w.codes
  {
  }

  /** Each step moves a code from one account to another. */
  lemma Balance(h: string -> string, w: World, a: Action, c: string)
    ensures Account(w, c) + Count(Happens(h, w, a, c, Issuance)) == Account(Step(h, w, a), c) + Departures(h, w, a, c)
  {
    match a
    case IssueCode(id, random) => BalanceIssue(h, w, id, random, c);
    case TakeCode(id, req) => BalanceTake(h, w, id, req, c);
    case CheckGrant(id) => BalanceCheckGrant(h, w, id, c);
    case CheckClient(id) => BalanceCheckClient(h, w, id, c);
    case MintToken(id, random) => BalanceMint(h, w, id, random, c);
    case SweepCodes =>
    case _ => BalanceOther(h, w, a, c);
  }

  /**
    * Conservation: over any run whatsoever, even one that draws the same random string twice, the issuances of a
    * code string are its stored copies, the requests holding it, and its overwritings, evictions, rejections and
    * tokens, each counted once.
    */
  lemma {:induction false} Conservation(h: string -> string, w: World, acts: seq<Action>, c: string)
    requires Initial(w)
    ensures var s := Run(h, w, acts);
            Tally(h, w, acts, c, Issuance) ==
            Stored(s.codes, c) + |Holders(s.procs, c)| + Tally(h, w, acts, c, Overwriting) +
            Tally(h, w, acts, c, Eviction) + Tally(h, w, acts, c, Rejection) + Tally(h, w, acts, c, Minting)
  {
    if acts == [] {
      assert Holders(w.procs, c) == {};
    } else {
      var n := |acts| - 1;
      Conservation(h, w, acts[..n], c);
      Balance(h, Run(h, w, acts[..n]), acts[n], c);
    }
  }

  // ---- with a fresh-name supply ----

  /** No two actions of the run draw the same random string. */
  ghost predicate FreshNames(acts: seq<Action>) {
    && (forall i, j :: 0 <= i < j < |acts| && acts[i].IssueCode? && acts[j].IssueCode? ==> acts[i].random != acts[j].random)
    && (forall i, j :: 0 <= i < j < |acts| && acts[i].MintToken? && acts[j].MintToken? ==> acts[i].random != acts[j].random)
  }

  lemma {:induction false} TallyZero(h: string -> string, w: World, acts: seq<Action>, c: string)
    requires forall i :: 0 <= i < |acts| && acts[i].IssueCode? ==> acts[i].random != c
    ensures Tally(h, w, acts, c, Issuance) == 0
  {
    if acts != [] { TallyZero(h, w, acts[..|acts| - 1], c); }
  }

  lemma {:induction false} IssuedAtMostOnce(h: string -> string, w: World, acts: seq<Action>, c: string)
    requires FreshNames(acts)
    ensures Tally(h, w, acts, c, Issuance) <= 1
  {
    if acts != [] {
      var n := |acts| - 1;
      if acts[n].IssueCode? && acts[n].random == c {
        TallyZero(h, w, acts[..n], c);
      } else {
        IssuedAtMostOnce(h, w, acts[..n], c);
      }
    }
  }

  lemma {:induction false} TallyMonotone(h: string -> string, w: World, acts: seq<Action>, c: string, f: Fate, i: nat)
    requires i <= |acts|
    ensures Tally(h, w, acts[..i], c, f) <= Tally(h, w, acts, c, f)
    decreases |acts|
  {
    if i == |acts| {
      assert acts[..i] == acts;
    } else {
      var n := |acts| - 1;
      TallyMonotone(h, w, acts[..n], c, f, i);
      assert acts[..n][..i] == acts[..i];
    }
  }

  lemma TallyHit(h: string -> string, w: World, acts: seq<Action>, c: string, f: Fate, i: nat)
    requires i < |acts| && Happens(h, At(h, w, acts, i), acts[i], c, f)
    ensures Tally(h, w, acts[..i + 1], c, f) == Tally(h, w, acts[..i], c, f) + 1 <= Tally(h, w, acts, c, f)
  {
    assert acts[..i + 1][..i] == acts[..i];
    TallyMonotone(h, w, acts, c, f, i + 1);
  }

  /**
    * With fresh names a code ends at most once: it is stored, held, overwritten, evicted, rejected or turned into a
    * token, never two of these. A failed redemption uses the code up like a successful one.
    */
  lemma OneFatePerCode(h: string -> string, w: World, acts: seq<Action>, c: string)
    requires Initial(w) && FreshNames(acts)
    ensures var s := Run(h, w, acts);
            Stored(s.codes, c) + |Holders(s.procs, c)| + Tally(h, w, acts, c, Overwriting) +
            Tally(h, w, acts, c, Eviction) + Tally(h, w, acts, c, Rejection) + Tally(h, w, acts, c, Minting) <= 1
  {
    Conservation(h, w, acts, c);
    IssuedAtMostOnce(h, w, acts, c);
  }

  lemma MintFacts(h: string -> string, w: World, acts: seq<Action>, st: Story)
    requires Minted(h, w, acts, st)
    ensures st.mint < |acts| && acts[st.mint] == MintToken(st.redeemId, st.random)
    ensures Happens(h, At(h, w, acts, st.mint), acts[st.mint], st.code, Minting)
    ensures st.redeemId in At(h, w, acts, st.mint).procs
    ensures At(h, w, acts, st.mint).procs[st.redeemId] == Accepted(st.auth, st.req) && st.req.code == Some(st.code)
  {
  }

  /** Two tokens were minted by the same action exactly when they are the same token, and exactly when they cost the same code. */
  lemma OneTokenPerCode(h: string -> string, w: World, acts: seq<Action>, s1: Story, s2: Story)
    requires Initial(w) && FreshNames(acts)
    requires Minted(h, w, acts, s1) && Minted(h, w, acts, s2)
    ensures s1.mint == s2.mint <==> TokenName(s1.random) == TokenName(s2.random)
    ensures s1.mint == s2.mint <==> s1.code == s2.code
  {
    MintFacts(h, w, acts, s1);
    MintFacts(h, w, acts, s2);
    assert TokenName(s1.random)[7..] == s1.random && TokenName(s2.random)[7..] == s2.random;
    if s1.code == s2.code {
      MintedOnce(h, w, acts, s1.code, s1.mint, s2.mint);
    }
  }

  lemma MintedOnce(h: string -> string, w: World, acts: seq<Action>, c: string, i: nat, j: nat)
    requires Initial(w) && FreshNames(acts) && i < |acts| && j < |acts|
    requires Happens(h, At(h, w, acts, i), acts[i], c, Minting) && Happens(h, At(h, w, acts, j), acts[j], c, Minting)
    ensures i == j
  {
    OneFatePerCode(h, w, acts, c);
    if i < j {
      TwoHits(h, w, acts, c, Minting, i, j);
    } else if j < i {
      TwoHits(h, w, acts, c, Minting, j, i);
    }
  }

  lemma TwoHits(h: string -> string, w: World, acts: seq<Action>, c: string, f: Fate, i: nat, j: nat)
    requires i < j < |acts|
    requires Happens(h, At(h, w, acts, i), acts[i], c, f) && Happens(h, At(h, w, acts, j), acts[j], c, f)
    ensures Tally(h, w, acts, c, f) >= 2
  {
    TallyHit(h, w, acts, c, f, j);
    assert acts[..j][..i] == acts[..i];
    TallyHit(h, w, acts[..j], c, f, i);
  }

  // ---- how long a token is good for ----

  /** The table says about token `t` what was said when it was minted at time `at`, and says it while it is young. */
  predicate Remembers(w: World, t: string, info: TokenInfo) {
    && info.created <= w.now
    && (t in w.tokens ==> w.tokens[t] == info)
    && (w.now - info.created < TOKEN_TTL ==> t in w.tokens)
  }

  lemma RemembersStep(h: string -> string, w: World, a: Action, t: string, info: TokenInfo)
    requires Remembers(w, t, info) && !(a.MintToken? && TokenName(a.random) == t)
    ensures Remembers(Step(h, w, a), t, info)
  {
  }

  lemma {:induction false} RunRemembers(h: string -> string, w: World, acts: seq<Action>, m: nat, k: nat)
    requires FreshNames(acts) && m < k <= |acts| && acts[m].MintToken?
    requires var s := At(h, w, acts, m); acts[m].id in s.procs && s.procs[acts[m].id].Accepted?
    ensures var s := At(h, w, acts, m);
            Remembers(At(h, w, acts, k), TokenName(acts[m].random), TokenInfo(s.procs[acts[m].id].auth.username, s.now))
    decreases k
  {
    var t := TokenName(acts[m].random);
    assert acts[..k] == acts[..k - 1] + [acts[k - 1]];
    RunSnoc(h, w, acts[..k - 1], acts[k - 1]);
    if k > m + 1 {
      RunRemembers(h, w, acts, m, k - 1);
      var s := At(h, w, acts, m);
      if acts[k - 1].MintToken? {
        assert TokenName(acts[k - 1].random)[7..] == acts[k - 1].random && t[7..] == acts[m].random;
      }
      RemembersStep(h, At(h, w, acts, k - 1), acts[k - 1], t, TokenInfo(s.procs[acts[m].id].auth.username, s.now));
    }
  }

  /** Whatever else happens, the userinfo endpoint honours a token for its user for exactly 86 400 s after it was minted. */
  lemma TokenLifetime(h: string -> string, w: World, acts: seq<Action>, st: Story, jwtUser: Option<string>)
    requires FreshNames(acts) && Minted(h, w, acts, st)
    ensures var s := Run(h, w, acts);
            AfterLookupToken(s.tokens, s.now, Some(TokenName(st.random)), jwtUser) ==
            if s.now - At(h, w, acts, st.mint).now < 86_400 * SECOND then Identified(st.auth.username) else Done(Unauthorized)
  {
    MintFacts(h, w, acts, st);
    MintRemembered(h, w, acts, st.mint, st.redeemId, st.random, Accepted(st.auth, st.req));
    assert TokenName(st.random)[0] == 's';
    LookupRemembered(Run(h, w, acts), TokenName(st.random), TokenInfo(st.auth.username, At(h, w, acts, st.mint).now), jwtUser);
  }

  lemma MintRemembered(h: string -> string, w: World, acts: seq<Action>, m: nat, id: nat, random: string, p: Phase)
    requires FreshNames(acts) && m < |acts| && acts[m] == MintToken(id, random) && p.Accepted?
    requires id in At(h, w, acts, m).procs && At(h, w, acts, m).procs[id] == p
    ensures Remembers(Run(h, w, acts), TokenName(random), TokenInfo(p.auth.username, At(h, w, acts, m).now))
  {
    RunRemembers(h, w, acts, m, |acts|);
    assert acts[..|acts|] == acts;
  }

  lemma LookupRemembered(s: World, t: string, info: TokenInfo, jwtUser: Option<string>)
    requires Remembers(s, t, info) && t != [] && t[0] == 's'
    ensures AfterLookupToken(s.tokens, s.now, Some(t), jwtUser) ==
            if s.now - info.created < TOKEN_TTL then Identified(info.username) else Done(Unauthorized)
  {
  }
}
