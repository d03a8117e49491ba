/** Where a sign-in's data comes from: every access token followed back through the
    events of a run to the authorize request that opened its page. */
module CodeOrigin {
  import opened CodeFlow

  // ----- one section -----

  /** For this client and its registered redirect, for a code and the openid scope, and
      with no challenge but an S256 one. */
  predicate WellAsked(cfg: Config, q: AuthorizeQuery) {
    && q.clientId == cfg.clientId && q.redirectUri == cfg.redirectUri && q.responseType == "code" && q.openid
    && (q.codeChallenge == "" || q.challengeMethod == "S256")
  }

  /** The page of an accepted request: what the request brought, for ten minutes. */
  ghost predicate PageOf(at: Setup, e: Event, page: string, req: LoginRequest) {
    && e.Opens? && e.id == page && WellAsked(at.cfg, e.q) && e.chains > 0
    && req.state == e.q.state && req.nonce == e.q.nonce && req.codeChallenge == e.q.codeChallenge
    && req.expires == e.now + 600
  }

  lemma RequestNext(at: Setup, s: State, e: Event, page: string)
    requires page in After(at, s, e).requests
    ensures
      var req := After(at, s, e).requests[page];
      || (page in s.requests && req == s.requests[page].(attempts := req.attempts))
      || (CanHappen(s, e) && PageOf(at, e, page, req) && |s.requests| < MAX_PENDING)
  {
    hide Opened, Gated, Ended, Coded, Took, Tokened, Cleaned, PageOf, Minted;
    if CanHappen(s, e) && e.Opens? {
      OpenedNext(at, s, e, page);
    }
  }

  lemma Inserted<K, V>(m: map<K, V>, k: K, v: V, j: K)
    requires j in m[k := v]
    ensures (j in m && m[k := v][j] == m[j]) || (j == k && m[k := v][j] == v)
  {}

  lemma OpenedNext(at: Setup, s: State, e: Event, page: string)
    requires e.Opens? && page in Opened(at, s, e.q, e.chains, e.id, e.now).requests
    ensures
      var req := Opened(at, s, e.q, e.chains, e.id, e.now).requests[page];
      (page in s.requests && req == s.requests[page]) || (PageOf(at, e, page, req) && |s.requests| < MAX_PENDING)
  {
    hide Opened;
    if Opened(at, s, e.q, e.chains, e.id, e.now).requests != s.requests {
      Inserted(s.requests, e.id, Page(e.q, e.now), page);
    }
  }

  /** The verify that passed a page's gate in time. */
  ghost predicate VerifyOf(s: State, e: Event, h: nat, v: Verifying) {
    && e.PassesGate? && e.h == h && e.page == v.page && v.now == e.now
    && v.page in s.requests && v.req == s.requests[v.page].(attempts := v.req.attempts) && e.now <= v.req.expires
  }

  lemma VerifyNext(at: Setup, s: State, e: Event, h: nat)
    requires h in After(at, s, e).verifying
    ensures
      var v := After(at, s, e).verifying[h];
      (h in s.verifying && v == s.verifying[h]) || (CanHappen(s, e) && VerifyOf(s, e, h, v))
  {
    hide Opened, Ended, Coded, Took, Tokened, Cleaned, CanHappen, Accepts;
  }

  /** The exchange that took a code in time, with the secret, the registered
      redirect and the proof of possession. */
  ghost predicate ExchangeOf(at: Setup, s: State, e: Event, h: nat, x: Exchanging) {
    && e.Takes? && e.h == h && e.f.code == x.code && x.now == e.now
    && x.code in s.codes && x.grant == s.codes[x.code] && e.now <= x.grant.expires
    && e.f.clientId == at.cfg.clientId && e.f.clientSecret == at.cfg.clientSecret && e.f.grantType == "authorization_code"
    && e.f.redirectUri == at.cfg.redirectUri
    && (x.grant.codeChallenge != "" ==> e.f.verifier != "" && at.s256(e.f.verifier) == x.grant.codeChallenge)
  }

  lemma ExchangeNext(at: Setup, s: State, e: Event, h: nat)
    requires h in After(at, s, e).exchanging
    ensures
      var x := After(at, s, e).exchanging[h];
      (h in s.exchanging && x == s.exchanging[h]) || (CanHappen(s, e) && ExchangeOf(at, s, e, h, x))
  {
    hide Took, Opened, Gated, Ended, Coded, Tokened, Cleaned, CanHappen, Accepts;
  }

  /** The issue of a token: who signed in, for ten minutes from the exchange. */
  ghost predicate IssueOf(s: State, e: Event, access: string, code: string, g: Grant) {
    && e.Issues? && e.access == access && e.h in s.exchanging && s.exchanging[e.h].code == code
    && g.who == s.exchanging[e.h].grant.who && g.expires == s.exchanging[e.h].now + 600
  }

  lemma TokenNext(at: Setup, s: State, e: Event, access: string)
    requires Valid(at, s) && access in After(at, s, e).tokens
    ensures
      var t := After(at, s, e);
      && access in t.issued
      && ((access in s.tokens && t.tokens[access] == s.tokens[access] && access in s.issued && t.issued[access] == s.issued[access])
          || (CanHappen(s, e) && IssueOf(s, e, access, t.issued[access], t.tokens[access])))
  {
    hide Pages, Budget, Codes, Closing, Redeems, Earned, Opened, Gated, Ended, Coded, Took, Cleaned;
  }

  // ----- back through the run -----

  /** Event `i` opened the page that the state before event `n` shows. */
  lemma {:induction false} PageOpened(at: Setup, events: seq<Event>, n: nat, page: string) returns (i: nat)
    requires n <= |events| && page in Met(at, START, events, n).requests
    ensures i < n && Makes(at, START, events, i) && PageOf(at, events[i], page, Met(at, START, events, n).requests[page])
    decreases n
  {
    hide RunOf, After, CanHappen, Accepts;
    if n == 0 {
      MetStart(at, START, events);
      assert false;
    } else {
      MetNext(at, START, events, n - 1);
      var s, e := Met(at, START, events, n - 1), events[n - 1];
      RequestNext(at, s, e, page);
      if CanHappen(s, e) && PageOf(at, e, page, Met(at, START, events, n).requests[page]) {
        i := n - 1;
      } else {
        i := PageOpened(at, events, n - 1, page);
      }
    }
  }

  /** Event `i` let in the verify that the state before event `n` shows under way. */
  lemma {:induction false} VerifyStarted(at: Setup, events: seq<Event>, n: nat, h: nat) returns (i: nat)
    requires n <= |events| && h in Met(at, START, events, n).verifying
    ensures i < n && Makes(at, START, events, i)
    ensures VerifyOf(Met(at, START, events, i), events[i], h, Met(at, START, events, n).verifying[h])
    decreases n
  {
    hide RunOf, After, CanHappen;
    if n == 0 {
      MetStart(at, START, events);
      assert false;
    } else {
      MetNext(at, START, events, n - 1);
      var s, e := Met(at, START, events, n - 1), events[n - 1];
      VerifyNext(at, s, e, h);
      if CanHappen(s, e) && VerifyOf(s, e, h, Met(at, START, events, n).verifying[h]) {
        i := n - 1;
      } else {
        i := VerifyStarted(at, events, n - 1, h);
      }
    }
  }

  /** Event `i` took the code that the state before event `n` shows in an exchange. */
  lemma {:induction false} ExchangeStarted(at: Setup, events: seq<Event>, n: nat, h: nat) returns (i: nat)
    requires n <= |events| && h in Met(at, START, events, n).exchanging
    ensures i < n && Makes(at, START, events, i)
    ensures ExchangeOf(at, Met(at, START, events, i), events[i], h, Met(at, START, events, n).exchanging[h])
    decreases n
  {
    hide RunOf, After, CanHappen;
    if n == 0 {
      MetStart(at, START, events);
      assert false;
    } else {
      MetNext(at, START, events, n - 1);
      var s, e := Met(at, START, events, n - 1), events[n - 1];
      ExchangeNext(at, s, e, h);
      if CanHappen(s, e) && ExchangeOf(at, s, e, h, Met(at, START, events, n).exchanging[h]) {
        i := n - 1;
      } else {
        i := ExchangeStarted(at, events, n - 1, h);
      }
    }
  }

  /** Event `i` issued the token that the state before event `n` still holds. */
  lemma {:induction false} TokenIssued(at: Setup, events: seq<Event>, n: nat, access: string) returns (i: nat)
    requires n <= |events| && access in Met(at, START, events, n).tokens
    ensures i < n && Makes(at, START, events, i) && access in Met(at, START, events, n).issued
    ensures var t := Met(at, START, events, n);
            IssueOf(Met(at, START, events, i), events[i], access, t.issued[access], t.tokens[access])
    decreases n
  {
    hide RunOf, After, CanHappen, Valid;
    StartValid(at);
    if n == 0 {
      MetStart(at, START, events);
      assert false;
    } else {
      MetNext(at, START, events, n - 1);
      MetValid(at, START, events, n - 1);
      var s, e, t := Met(at, START, events, n - 1), events[n - 1], Met(at, START, events, n);
      TokenNext(at, s, e, access);
      if CanHappen(s, e) && IssueOf(s, e, access, t.issued[access], t.tokens[access]) {
        i := n - 1;
      } else {
        i := TokenIssued(at, events, n - 1, access);
      }
    }
  }

  // ----- the whole way -----

  /** Event `m` minted `code` for the verify that event `g` let into the page that event `o` opened. */
  ghost predicate CodeFrom(at: Setup, events: seq<Event>, o: nat, g: nat, m: nat, code: string, birth: Birth)
    requires o < g < m < |events|
  {
    var opens, gate, mint := events[o], events[g], events[m];
    && Makes(at, START, events, o) && Makes(at, START, events, g) && Makes(at, START, events, m)
    && opens.Opens? && WellAsked(at.cfg, opens.q) && opens.chains > 0 && opens.id == birth.page
    && gate.PassesGate? && gate.page == birth.page && gate.now <= opens.now + 600
    && mint.Mints? && mint.h == gate.h && mint.code == code
    && birth.grant.who == Identity(mint.sub, mint.name, gate.now, mint.via)
    && birth.grant.nonce == opens.q.nonce && birth.grant.codeChallenge == opens.q.codeChallenge
    && birth.grant.expires == gate.now + 60
  }

  /** Every code of a run was minted by a verify that passed, within ten minutes,
      the gate of a page that an accepted request opened, and carries that
      request's nonce and challenge for a minute. */
  lemma CodeTraced(at: Setup, events: seq<Event>, n: nat, code: string) returns (o: nat, g: nat, m: nat)
    requires n <= |events| && code in Met(at, START, events, n).born
    ensures o < g < m < n && CodeFrom(at, events, o, g, m, code, Met(at, START, events, n).born[code])
  {
    hide Valid, RunOf, Met, CanHappen, Accepts;
    StartValid(at);
    CodesExactly(at, START, events, n, code);
    m :| 0 <= m < n && Makes(at, START, events, m) && events[m].Mints? && events[m].code == code;
    MintersVerify(Met(at, START, events, m), events[m]);
    g := VerifyStarted(at, events, m, events[m].h);
    o := PageOpened(at, events, g, events[g].page);
  }

  /** Event `k` took the code with the client's secret, the registered redirect and,
      when the request brought a challenge, a verifier that hashes to it. */
  ghost predicate TakenBy(at: Setup, opens: Event, gate: Event, take: Event, code: string)
    requires opens.Opens? && gate.PassesGate?
  {
    && take.Takes? && take.f.code == code && take.now <= gate.now + 60
    && take.f.clientId == at.cfg.clientId && take.f.clientSecret == at.cfg.clientSecret
    && take.f.grantType == "authorization_code" && take.f.redirectUri == at.cfg.redirectUri
    && (opens.q.codeChallenge != "" ==> take.f.verifier != "" && at.s256(take.f.verifier) == opens.q.codeChallenge)
  }

  /** From the authorize request to the token: the events `o`, `g`, `m`, `k` and `j` in this order. */
  ghost predicate TokenFrom(at: Setup, events: seq<Event>, o: nat, g: nat, m: nat, k: nat, j: nat, access: string)
    requires o < g < m < k < j < |events|
  {
    var t := RunOf(at, START, events);
    && access in t.issued && t.issued[access] in t.born
    && CodeFrom(at, events, o, g, m, t.issued[access], t.born[t.issued[access]])
    && Makes(at, START, events, k) && TakenBy(at, events[o], events[g], events[k], t.issued[access])
    && Makes(at, START, events, j) && events[j].Issues? && events[j].access == access && events[j].h == events[k].h
    && (access in t.tokens ==>
          t.tokens[access].who == Identity(events[m].sub, events[m].name, events[g].now, events[m].via)
          && t.tokens[access].expires == events[k].now + 600)
  }

  lemma BirthStays(at: Setup, events: seq<Event>, k: nat, code: string)
    requires k <= |events| && code in Met(at, START, events, k).born
    ensures var t := RunOf(at, START, events);
            code in t.born && t.born[code] == Met(at, START, events, k).born[code]
  {
    hide Valid, RunOf, Met, CanHappen, Minted;
    StartValid(at);
    RunIsMet(at, events);
    CodesExactly(at, START, events, k, code);
    CodesExactly(at, START, events, |events|, code);
  }

  lemma RunIsMet(at: Setup, events: seq<Event>)
    ensures Met(at, START, events, |events|) == RunOf(at, START, events)
  {
    assert events[..|events|] == events;
  }

  lemma IssuersHold(s: State, e: Event)
    requires CanHappen(s, e) && e.Issues?
    ensures e.h in s.exchanging
  {
  }

  lemma CodesBorn(at: Setup, s: State, code: string)
    requires Valid(at, s) && code in s.codes
    ensures code in s.born && s.codes[code] == s.born[code].grant
  {
    hide Pages, Budget, Tokens, Closing;
  }

  /** Event `j` issued the token, and what it still tells is what its exchange held. */
  lemma Issuer(at: Setup, events: seq<Event>, access: string) returns (j: nat)
    requires access in RunOf(at, START, events).issued
    ensures j < |events| && Makes(at, START, events, j) && events[j].Issues? && events[j].access == access
    ensures events[j].h in Met(at, START, events, j).exchanging
    ensures var t, x := RunOf(at, START, events), Met(at, START, events, j).exchanging[events[j].h];
      && t.issued[access] == x.code
      && (access in t.tokens ==> t.tokens[access].who == x.grant.who && t.tokens[access].expires == x.now + 600)
  {
    hide Valid, RunOf, Met, CanHappen, After;
    StartValid(at);
    RunIsMet(at, events);
    if access in RunOf(at, START, events).tokens {
      j := TokenIssued(at, events, |events|, access);
    } else {
      TokensExactly(at, START, events, |events|, access);
      j :| 0 <= j < |events| && Makes(at, START, events, j) && events[j].Issues? && events[j].access == access;
      IssuersHold(Met(at, START, events, j), events[j]);
    }
  }

  /** Every access token of a run goes back to an accepted authorize request, whose
      challenge its code was redeemed under. */
  lemma TokenTraced(at: Setup, events: seq<Event>, access: string) returns (o: nat, g: nat, m: nat, k: nat, j: nat)
    requires access in RunOf(at, START, events).issued
    ensures o < g < m < k < j < |events| && TokenFrom(at, events, o, g, m, k, j, access)
  {
    hide Valid, RunOf, Met, CanHappen, Accepts, After;
    StartValid(at);
    j := Issuer(at, events, access);
    k := ExchangeStarted(at, events, j, events[j].h);
    var code := events[k].f.code;
    MetValid(at, START, events, k);
    CodesBorn(at, Met(at, START, events, k), code);
    o, g, m := CodeTraced(at, events, k, code);
    BirthStays(at, events, k, code);
  }

  // ----- a sign-in that keeps to the rules succeeds -----

  /** The five sections of one sign-in. */
  function SignIn(q: AuthorizeQuery, chains: nat, id: string, begun: int, h: nat, passed: int, sub: string, name: string,
    via: Delegation, code: string, x: nat, f: TokenForm, taken: int, access: string): seq<Event>
  {
    [Opens(q, chains, id, begun)] + [PassesGate(h, id, passed)] + [Mints(h, sub, name, via, code)]
    + [Takes(x, f, taken)] + [Issues(x, access)]
  }

  /** In time, with room, the secret, the registered redirect and the verifier of
      the request's own challenge, a sign-in ends in a token for its account. */
  lemma SignInSucceeds(at: Setup, s: State, q: AuthorizeQuery, chains: nat, id: string, begun: int, h: nat, passed: int,
    sub: string, name: string, via: Delegation, code: string, x: nat, f: TokenForm, taken: int, access: string)
    requires WellAsked(at.cfg, q) && chains > 0 && |s.requests| < 10_000 && h !in s.verifying && x !in s.exchanging
    requires id !in s.drawn && code !in s.drawn && access !in s.drawn && id != code && id != access && code != access
    requires passed <= begun + 600 && taken <= passed + 60
    requires f.clientId == at.cfg.clientId && f.clientSecret == at.cfg.clientSecret && f.grantType == "authorization_code"
    requires f.code == code && f.redirectUri == at.cfg.redirectUri
    requires q.codeChallenge == "" || (f.verifier != "" && at.s256(f.verifier) == q.codeChallenge)
    ensures
      var t := RunOf(at, s, SignIn(q, chains, id, begun, h, passed, sub, name, via, code, x, f, taken, access));
      && access in t.tokens && t.tokens[access].who == Identity(sub, name, passed, via) && t.tokens[access].expires == taken + 600
      && access in t.issued && t.issued[access] == code
  {
    Complies(at, s, q, chains, f);
    hide Admits, Authenticates, Proves, Redeems, Opened, Gated, WellAsked;
    var e0, e1, e2 := Opens(q, chains, id, begun), PassesGate(h, id, passed), Mints(h, sub, name, via, code);
    var e3, e4 := Takes(x, f, taken), Issues(x, access);
    RunMore(at, s, [], e0);
    assert [] + [e0] == [e0];
    RunMore(at, s, [e0], e1);
    RunMore(at, s, [e0] + [e1], e2);
    RunMore(at, s, [e0] + [e1] + [e2], e3);
    RunMore(at, s, [e0] + [e1] + [e2] + [e3], e4);
    hide RunOf;
    var s1 := Opened(at, s, q, chains, id, begun);
    assert LetsIn(s1, id, passed);
    var s2 := Gated(s1, h, id, passed);
    var g := Minted(Verifying(id, Tried(Page(q, begun)), passed), sub, name, via);
    RedeemsIt(at, q, g, f);
    CodeThenToken(at, s2, h, sub, name, via, code, x, f, taken, access);
  }

  lemma Complies(at: Setup, s: State, q: AuthorizeQuery, chains: nat, f: TokenForm)
    requires WellAsked(at.cfg, q) && chains > 0 && |s.requests| < 10_000
    requires f.clientId == at.cfg.clientId && f.clientSecret == at.cfg.clientSecret && f.grantType == "authorization_code"
    requires q.codeChallenge == "" || (f.verifier != "" && at.s256(f.verifier) == q.codeChallenge)
    ensures Admits(at, s, q, chains) && Authenticates(at.cfg, f) && Proves(at.s256, q.codeChallenge, f.verifier)
  {}

  lemma RedeemsIt(at: Setup, q: AuthorizeQuery, g: Grant, f: TokenForm)
    requires Authenticates(at.cfg, f) && f.redirectUri == at.cfg.redirectUri && Proves(at.s256, q.codeChallenge, f.verifier)
    requires g.codeChallenge == q.codeChallenge
    ensures Redeems(at, g, f)
  {
  }

  lemma CodeThenToken(at: Setup, s: State, h: nat, sub: string, name: string, via: Delegation, code: string,
    x: nat, f: TokenForm, taken: int, access: string)
    requires h in s.verifying && x !in s.exchanging && code !in s.drawn && access !in s.drawn && code != access
    requires f.code == code && Authenticates(at.cfg, f) && taken <= s.verifying[h].now + 60
    requires Redeems(at, Minted(s.verifying[h], sub, name, via), f)
    ensures
      var s1 := After(at, s, Mints(h, sub, name, via, code));
      var s2 := After(at, s1, Takes(x, f, taken));
      var t := After(at, s2, Issues(x, access));
      && access in t.tokens && t.tokens[access].who == Identity(sub, name, s.verifying[h].now, via)
      && t.tokens[access].expires == taken + 600 && access in t.issued && t.issued[access] == code
  {
    hide Redeems, Authenticates;
    var s1 := Coded(s, h, sub, name, via, code);
    assert s1.codes[code] == Minted(s.verifying[h], sub, name, via);
    var s2 := Took(at, s1, x, f, taken);
    assert s2.exchanging[x] == Exchanging(code, s1.codes[code], taken);
  }

  // ----- sweeping -----

  /** Whether userinfo answers for a token. */
  predicate Honours(s: State, access: string, now: int) { access in s.tokens && now <= s.tokens[access].expires }

  /** A sweep leaves nothing that has expired. */
  lemma SweepClears(s: State, now: int)
    ensures var t := Cleaned(s, now);
      && (forall id <- t.requests :: now <= t.requests[id].expires)
      && (forall code <- t.codes :: now <= t.codes[code].expires)
      && (forall a <- t.tokens :: now <= t.tokens[a].expires)
  {
  }

  lemma SweepPages(s: State, now: int, later: int, h: nat, page: string)
    requires now <= later
    ensures LetsIn(Cleaned(s, now), page, later) == LetsIn(s, page, later)
    ensures Gated(Cleaned(s, now), h, page, later).verifying == Gated(s, h, page, later).verifying
  {
  }

  lemma SweepCodes(at: Setup, s: State, now: int, later: int, h: nat, f: TokenForm)
    requires now <= later
    ensures Took(at, Cleaned(s, now), h, f, later).exchanging == Took(at, s, h, f, later).exchanging
  {
    hide Redeems, Authenticates, Unclosed, Took;
    assert Cleaned(s, now).codes == Unexpired(s.codes, now);
  }

  lemma SweepTokens(s: State, now: int, later: int, access: string)
    requires now <= later
    ensures Honours(Cleaned(s, now), access, later) == Honours(s, access, later)
  {
  }

  /** And no gate, exchange or userinfo from then on can tell that it ran. */
  lemma SweepUnseen(at: Setup, s: State, now: int, later: int, h: nat, page: string, f: TokenForm, access: string)
    requires now <= later
    ensures var t := Cleaned(s, now);
      && LetsIn(t, page, later) == LetsIn(s, page, later)
      && Gated(t, h, page, later).verifying == Gated(s, h, page, later).verifying
      && Took(at, t, h, f, later).exchanging == Took(at, s, h, f, later).exchanging
      && Honours(t, access, later) == Honours(s, access, later)
  {
    hide Cleaned, LetsIn, Gated, Took, Honours;
    SweepPages(s, now, later, h, page);
    SweepCodes(at, s, now, later, h, f);
    SweepTokens(s, now, later, access);
  }

  /** A page lets verifies in exactly while it is open and in time and has let in fewer than five. */
  lemma OpenWhileTriesLeft(at: Setup, s: State, page: string, now: int)
    requires Valid(at, s)
    ensures LetsIn(s, page, now) <==> page in s.requests && now <= s.requests[page].expires && PassesOf(s.passes, page) < 5
  {
    hide Budget, Codes, Tokens, Closing;
  }
}
