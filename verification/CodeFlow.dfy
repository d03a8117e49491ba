/** The sign-in provider's code flow as values: what each critical section does to
    the maps and the history, and what every interleaving of them keeps.

    Oidc.dfy does the same work in place. */
module CodeFlow {
  import opened Sets

  const REQUEST_TTL := 600
  const CODE_TTL := 60
  const TOKEN_TTL := 600
  const MAX_ATTEMPTS := 5
  const MAX_PENDING := 10_000

  datatype LoginRequest = LoginRequest(state: string, nonce: string, codeChallenge: string, expires: int, attempts: nat)

  /** Which key came in for the account, through which session grant; or none. */
  datatype Delegation = Own | Through(delegate: string, grantId: string, chainKey: string)

  datatype Identity = Identity(sub: string, name: string, authTime: int, delegation: Delegation)

  datatype Grant = Grant(who: Identity, nonce: string, codeChallenge: string, expires: int)

  datatype AuthorizeQuery = AuthorizeQuery(
    clientId: string, redirectUri: string, responseType: string, openid: bool,
    state: string, nonce: string, codeChallenge: string, challengeMethod: string)

  datatype TokenForm = TokenForm(
    clientId: string, clientSecret: string, grantType: string, code: string, redirectUri: string, verifier: string)

  datatype Config = Config(clientId: string, clientSecret: string, redirectUri: string)

  /** What a verify holds between its two critical sections, and a token exchange
      between its own. */
  datatype Verifying = Verifying(page: string, req: LoginRequest, now: int)

  datatype Exchanging = Exchanging(code: string, grant: Grant, now: int)

  /** A code's birth: the page it came from and what its verify found. */
  datatype Birth = Birth(page: string, grant: Grant)

  predicate Accepts(cfg: Config, q: AuthorizeQuery) {
    && q.clientId == cfg.clientId && q.redirectUri == cfg.redirectUri && q.responseType == "code" && q.openid
    && (q.codeChallenge != "" ==> q.challengeMethod == "S256")
  }

  predicate Authenticates(cfg: Config, f: TokenForm) {
    f.clientId == cfg.clientId && f.clientSecret == cfg.clientSecret && f.grantType == "authorization_code"
  }

  /** The proof of possession of the code's challenge (section 4.6 of RFC 7636). */
  predicate Proves(s256: string -> string, challenge: string, verifier: string) {
    challenge == "" || (verifier != "" && s256(verifier) == challenge)
  }

  /** One critical section: a handler's, named by its number, or the sweeper's. */
  datatype Event =
    | Opens(q: AuthorizeQuery, chains: nat, id: string, now: int)
    | PassesGate(h: nat, page: string, now: int)
    | GivesUp(h: nat)
    | Mints(h: nat, sub: string, name: string, via: Delegation, code: string)
    | Takes(h: nat, f: TokenForm, now: int)
    | Issues(h: nat, access: string)
    | Sweeps(now: int)

  datatype Setup = Setup(cfg: Config, s256: string -> string)

  /** What a verify puts behind its code: the account, the page's nonce and
      challenge, and the time it passed the gate. */
  function Minted(v: Verifying, sub: string, name: string, via: Delegation): Grant {
    Grant(Identity(sub, name, v.now, via), v.req.nonce, v.req.codeChallenge, v.now + CODE_TTL)
  }

  /** The maps, the local variables of the handlers between their sections, every
      random token drawn; and the history: how many verifies each page let past
      its gate, every code and what it was redeemed with, and the code of every
      access token. */
  datatype State = State(
    requests: map<string, LoginRequest>, codes: map<string, Grant>, tokens: map<string, Grant>,
    verifying: map<nat, Verifying>, exchanging: map<nat, Exchanging>, drawn: set<string>,
    passes: map<string, nat>, born: map<string, Birth>, redeemed: map<string, TokenForm>, issued: map<string, string>)

  const START := State(map[], map[], map[], map[], map[], {}, map[], map[], map[], map[])

  // ----- the critical sections -----

  predicate Admits(at: Setup, s: State, q: AuthorizeQuery, chains: nat) {
    Accepts(at.cfg, q) && chains > 0 && |s.requests| < MAX_PENDING
  }

  /** A login page opens under a random token, while there is room. */
  function Opened(at: Setup, s: State, q: AuthorizeQuery, chains: nat, id: string, now: int): (t: State)
    ensures t.verifying == s.verifying && t.born == s.born && t.issued == s.issued
    ensures t.passes == s.passes || t.passes == s.passes[id := 0]
    ensures t.exchanging == s.exchanging && t.tokens == s.tokens
    ensures t.drawn == s.drawn + {id}
    ensures t.requests == if Admits(at, s, q, chains) then s.requests[id := Page(q, now)] else s.requests
  {
    if Admits(at, s, q, chains)
    then s.(drawn := s.drawn + {id}, requests := s.requests[id := Page(q, now)], passes := s.passes[id := 0])
    else s.(drawn := s.drawn + {id})
  }

  function Page(q: AuthorizeQuery, now: int): LoginRequest {
    LoginRequest(q.state, q.nonce, q.codeChallenge, now + REQUEST_TTL, 0)
  }

  predicate LetsIn(s: State, page: string, now: int) {
    page in s.requests && now <= s.requests[page].expires && s.requests[page].attempts < MAX_ATTEMPTS
  }

  function Tried(req: LoginRequest): LoginRequest { req.(attempts := req.attempts + 1) }

  /** A verify passes the gate of an open page with a try left; any other page closes. */
  function Gated(s: State, h: nat, page: string, now: int): (t: State)
    ensures t.born == s.born && t.issued == s.issued && (LetsIn(s, page, now) || t.passes == s.passes)
    ensures forall g <- t.verifying :: (g in s.verifying && t.verifying[g] == s.verifying[g]) || (LetsIn(s, page, now) && t.verifying[g].page == page)
    ensures LetsIn(s, page, now) ==>
      && t.passes == s.passes[page := PassesOf(s.passes, page) + 1]
      && t.requests == s.requests[page := Tried(s.requests[page])]
      && t.verifying == s.verifying[h := Verifying(page, Tried(s.requests[page]), now)]
    ensures t.drawn == s.drawn
    ensures t.exchanging == s.exchanging && t.tokens == s.tokens
    ensures forall p <- t.requests :: p in s.requests && t.requests[p] == s.requests[p].(attempts := t.requests[p].attempts)
  {
    if LetsIn(s, page, now)
    then s.(requests := s.requests[page := Tried(s.requests[page])],
            verifying := s.verifying[h := Verifying(page, Tried(s.requests[page]), now)],
            passes := s.passes[page := PassesOf(s.passes, page) + 1])
    else s.(requests := s.requests - {page})
  }

  function Ended(s: State, h: nat): (t: State)
    ensures t.verifying == s.verifying - {h} && t.born == s.born && t.issued == s.issued && t.passes == s.passes
    ensures t.requests == s.requests && t.exchanging == s.exchanging && t.tokens == s.tokens
  {
    s.(verifying := s.verifying - {h})
  }

  /** The page closes and a code is minted. */
  function Coded(s: State, h: nat, sub: string, name: string, via: Delegation, code: string): (t: State)
    requires h in s.verifying
    ensures t.verifying == s.verifying - {h} && t.issued == s.issued && t.passes == s.passes
    ensures t.requests == s.requests - {s.verifying[h].page} && t.exchanging == s.exchanging && t.tokens == s.tokens
    ensures t.born == s.born[code := Birth(s.verifying[h].page, Minted(s.verifying[h], sub, name, via))]
  {
    s.(requests := s.requests - {s.verifying[h].page}, verifying := s.verifying - {h}, drawn := s.drawn + {code},
       codes := s.codes[code := Minted(s.verifying[h], sub, name, via)],
       born := s.born[code := Birth(s.verifying[h].page, Minted(s.verifying[h], sub, name, via))])
  }

  predicate Goes(at: Setup, codes: map<string, Grant>, f: TokenForm, now: int) {
    Authenticates(at.cfg, f) && f.code in codes && now <= codes[f.code].expires && Redeems(at, codes[f.code], f)
  }

  /** The code is gone whatever comes of the exchange. */
  function Took(at: Setup, s: State, h: nat, f: TokenForm, now: int): (t: State)
    ensures t.requests == s.requests && t.tokens == s.tokens
    ensures t.exchanging == if Goes(at, s.codes, f, now) then s.exchanging[h := Exchanging(f.code, s.codes[f.code], now)] else s.exchanging
    ensures t.verifying == s.verifying && t.born == s.born && t.issued == s.issued && t.passes == s.passes
  {
    if !Authenticates(at.cfg, f) || f.code !in s.codes then s
    else if Goes(at, s.codes, f, now)
    then s.(codes := s.codes - {f.code}, redeemed := s.redeemed[f.code := f],
            exchanging := s.exchanging[h := Exchanging(f.code, s.codes[f.code], now)])
    else s.(codes := s.codes - {f.code}, redeemed := s.redeemed[f.code := f])
  }

  function AccessTo(e: Exchanging): Grant { Grant(e.grant.who, "", "", e.now + TOKEN_TTL) }

  /** The access token of the code the exchange holds. */
  function Tokened(s: State, h: nat, access: string): (t: State)
    requires h in s.exchanging
    ensures t.verifying == s.verifying && t.born == s.born && t.passes == s.passes && t.requests == s.requests
    ensures t.exchanging == s.exchanging - {h}
    ensures t.issued == s.issued[access := s.exchanging[h].code]
  {
    s.(tokens := s.tokens[access := AccessTo(s.exchanging[h])], exchanging := s.exchanging - {h},
       drawn := s.drawn + {access}, issued := s.issued[access := s.exchanging[h].code])
  }

  function Cleaned(s: State, now: int): (t: State)
    ensures t.exchanging == s.exchanging && (forall p <- t.requests :: p in s.requests && t.requests[p] == s.requests[p])
    ensures forall a <- t.tokens :: a in s.tokens && t.tokens[a] == s.tokens[a]
    ensures t.verifying == s.verifying && t.born == s.born && t.issued == s.issued && t.passes == s.passes
  {
    s.(requests := Unclosed(s.requests, now), codes := Unexpired(s.codes, now), tokens := Unexpired(s.tokens, now))
  }

  /** A random token is new when drawn, and a handler runs its sections in order. */
  predicate CanHappen(s: State, e: Event) {
    match e
    case Opens(_, _, id, _) => id !in s.drawn
    case PassesGate(h, _, _) => h !in s.verifying
    case GivesUp(h) => h in s.verifying
    case Mints(h, _, _, _, code) => h in s.verifying && code !in s.drawn
    case Takes(h, _, _) => h !in s.exchanging
    case Issues(h, access) => h in s.exchanging && access !in s.drawn
    case Sweeps(_) => true
  }

  function After(at: Setup, s: State, e: Event): State {
    if !CanHappen(s, e) then s
    else
      match e
      case Opens(q, chains, id, now) => Opened(at, s, q, chains, id, now)
      case PassesGate(h, page, now) => Gated(s, h, page, now)
      case GivesUp(h) => Ended(s, h)
      case Mints(h, sub, name, via, code) => Coded(s, h, sub, name, via, code)
      case Takes(h, f, now) => Took(at, s, h, f, now)
      case Issues(h, access) => Tokened(s, h, access)
      case Sweeps(now) => Cleaned(s, now)
  }

  function RunOf(at: Setup, s: State, events: seq<Event>): State {
    if events == [] then s else After(at, RunOf(at, s, events[..|events| - 1]), events[|events| - 1])
  }

  // ----- what every section keeps -----

  predicate Redeems(at: Setup, g: Grant, f: TokenForm) {
    Authenticates(at.cfg, f) && f.redirectUri == at.cfg.redirectUri && Proves(at.s256, g.codeChallenge, f.verifier)
  }

  /** Open pages within their cap, each having let in as many verifies as it
      counted; and no page, open or gone, ever let in more than its tries. */
  ghost predicate Pages(requests: map<string, LoginRequest>, passes: map<string, nat>, drawn: set<string>) {
    && |requests| <= MAX_PENDING
    && passes.Keys <= drawn
    && (forall id <- requests :: id in passes && requests[id].attempts == passes[id])
    && (forall id <- passes :: passes[id] <= MAX_ATTEMPTS)
  }

  ghost function BornOf(born: map<string, Birth>, page: string): set<string> {
    set code | code in born && born[code].page == page
  }

  ghost function Flying(verifying: map<nat, Verifying>, page: string): set<nat> {
    set h | h in verifying && verifying[h].page == page
  }

  function PassesOf(passes: map<string, nat>, page: string): nat { if page in passes then passes[page] else 0 }

  /** A page's codes and its verifies under way are covered by its passes. */
  ghost predicate Budget(verifying: map<nat, Verifying>, born: map<string, Birth>, passes: map<string, nat>) {
    forall page :: |BornOf(born, page)| + |Flying(verifying, page)| <= PassesOf(passes, page)
  }

  /** A code is there to be taken, held by one exchange that may redeem it, or spent. */
  ghost predicate Codes(at: Setup, codes: map<string, Grant>, exchanging: map<nat, Exchanging>, drawn: set<string>,
    born: map<string, Birth>, redeemed: map<string, TokenForm>, issued: map<string, string>)
  {
    && codes.Keys <= born.Keys <= drawn && redeemed.Keys <= born.Keys && codes.Keys !! redeemed.Keys
    && issued.Values <= redeemed.Keys
    && (forall code <- codes :: codes[code] == born[code].grant)
    && (forall h <- exchanging :: Held(at, exchanging[h], born, redeemed) && exchanging[h].code !in issued.Values)
    && (forall h <- exchanging, other <- exchanging :: h != other ==> exchanging[h].code != exchanging[other].code)
  }

  ghost predicate Held(at: Setup, e: Exchanging, born: map<string, Birth>, redeemed: map<string, TokenForm>) {
    && e.code in redeemed && e.code in born
    && e.grant == born[e.code].grant && Redeems(at, e.grant, redeemed[e.code])
  }

  /** Every access token came from its own code, redeemed by who could prove it,
      and tells what that code's verify found. */
  ghost predicate Tokens(at: Setup, tokens: map<string, Grant>, drawn: set<string>,
    born: map<string, Birth>, redeemed: map<string, TokenForm>, issued: map<string, string>)
  {
    && tokens.Keys <= issued.Keys <= drawn
    && (forall a <- issued, b <- issued :: a != b ==> issued[a] != issued[b])
    && (forall access <- issued :: Earned(at, issued[access], born, redeemed))
    && (forall access <- tokens :: tokens[access].who == born[issued[access]].grant.who)
  }

  ghost predicate Earned(at: Setup, code: string, born: map<string, Birth>, redeemed: map<string, TokenForm>) {
    code in born && code in redeemed && Redeems(at, born[code].grant, redeemed[code])
  }

  function Unexpired(grants: map<string, Grant>, now: int): map<string, Grant> {
    map k | k in grants && now <= grants[k].expires :: grants[k]
  }

  function Unclosed(requests: map<string, LoginRequest>, now: int): map<string, LoginRequest> {
    map id | id in requests && now <= requests[id].expires :: requests[id]
  }

  lemma PagesSwept(requests: map<string, LoginRequest>, passes: map<string, nat>, drawn: set<string>, now: int)
    requires Pages(requests, passes, drawn)
    ensures Pages(Unclosed(requests, now), passes, drawn)
  {
    Fewer(Unclosed(requests, now).Keys, requests.Keys);
  }

  lemma PagesClose(requests: map<string, LoginRequest>, passes: map<string, nat>, drawn: set<string>, page: string)
    requires Pages(requests, passes, drawn)
    ensures Pages(requests - {page}, passes, drawn)
  {
    var kept := requests - {page};
    Fewer(kept.Keys, requests.Keys);
    assert forall id <- kept :: id in requests && kept[id] == requests[id];
  }

  lemma Overwritten<K, V>(m: map<K, V>, k: K, v: V)
    ensures m[k := v] - {k} == m - {k}
  {
  }

  lemma Absent<K, V>(m: map<K, V>, k: K)
    requires k !in m
    ensures m - {k} == m
  {
  }

  lemma PagesOpen(requests: map<string, LoginRequest>, passes: map<string, nat>, drawn: set<string>, id: string, req: LoginRequest)
    requires Pages(requests, passes, drawn) && id !in drawn && |requests| < MAX_PENDING && req.attempts == 0
    ensures id !in passes && Pages(requests[id := req], passes[id := 0], drawn + {id})
  {
    assert requests[id := req].Keys == requests.Keys + {id};
    assert |requests[id := req].Keys| == |requests.Keys| + 1;
  }

  lemma BudgetOpen(verifying: map<nat, Verifying>, born: map<string, Birth>, passes: map<string, nat>, id: string)
    requires Budget(verifying, born, passes) && id !in passes
    ensures Budget(verifying, born, passes[id := 0])
  {
    hide BornOf, Flying;
    forall page
      ensures |BornOf(born, page)| + |Flying(verifying, page)| <= PassesOf(passes[id := 0], page)
    {
      assert PassesOf(passes[id := 0], page) == PassesOf(passes, page);
    }
  }

  lemma PagesDraw(requests: map<string, LoginRequest>, passes: map<string, nat>, drawn: set<string>, id: string)
    requires Pages(requests, passes, drawn)
    ensures Pages(requests, passes, drawn + {id})
  {
  }

  lemma PagesPass(requests: map<string, LoginRequest>, passes: map<string, nat>, drawn: set<string>, page: string)
    requires Pages(requests, passes, drawn) && page in requests && requests[page].attempts < MAX_ATTEMPTS
    ensures page in passes
    ensures Pages(requests[page := Tried(requests[page])], passes[page := passes[page] + 1], drawn)
  {
    assert requests[page := Tried(requests[page])].Keys == requests.Keys;
  }

  lemma FlyingAdds(verifying: map<nat, Verifying>, h: nat, v: Verifying, page: string)
    requires h !in verifying
    ensures |Flying(verifying[h := v], page)| == |Flying(verifying, page)| + if v.page == page then 1 else 0
  {
    assert Flying(verifying[h := v], page) == Flying(verifying, page) + if v.page == page then {h} else {};
  }

  lemma FlyingEnds(verifying: map<nat, Verifying>, h: nat, page: string)
    requires h in verifying
    ensures |Flying(verifying, page)| == |Flying(verifying - {h}, page)| + if verifying[h].page == page then 1 else 0
  {
    assert (verifying - {h})[h := verifying[h]] == verifying;
    FlyingAdds(verifying - {h}, h, verifying[h], page);
  }

  lemma BornAdds(born: map<string, Birth>, code: string, birth: Birth, page: string)
    requires code !in born
    ensures |BornOf(born[code := birth], page)| == |BornOf(born, page)| + if birth.page == page then 1 else 0
  {
    assert BornOf(born[code := birth], page) == BornOf(born, page) + if birth.page == page then {code} else {};
  }

  lemma BudgetPass(verifying: map<nat, Verifying>, born: map<string, Birth>, passes: map<string, nat>, h: nat, v: Verifying)
    requires Budget(verifying, born, passes) && h !in verifying && v.page in passes
    ensures Budget(verifying[h := v], born, passes[v.page := passes[v.page] + 1])
  {
    hide BornOf, Flying;
    forall page
      ensures |BornOf(born, page)| + |Flying(verifying[h := v], page)| <= PassesOf(passes[v.page := passes[v.page] + 1], page)
    {
      FlyingAdds(verifying, h, v, page);
    }
  }

  lemma VerifyDone(verifying: map<nat, Verifying>, born: map<string, Birth>, passes: map<string, nat>, h: nat)
    requires Budget(verifying, born, passes) && h in verifying
    ensures Budget(verifying - {h}, born, passes)
  {
    hide BornOf, Flying;
    forall page
      ensures |BornOf(born, page)| + |Flying(verifying - {h}, page)| <= PassesOf(passes, page)
    {
      FlyingEnds(verifying, h, page);
    }
  }

  lemma BudgetEnd(verifying: map<nat, Verifying>, born: map<string, Birth>, passes: map<string, nat>, h: nat, code: string, birth: Birth)
    requires Budget(verifying, born, passes) && h in verifying && code !in born && birth.page == verifying[h].page
    ensures Budget(verifying - {h}, born[code := birth], passes)
  {
    hide BornOf, Flying;
    forall page
      ensures |BornOf(born[code := birth], page)| + |Flying(verifying - {h}, page)| <= PassesOf(passes, page)
    {
      FlyingEnds(verifying, h, page);
      BornAdds(born, code, birth, page);
    }
  }

  /** So one page mints no more codes than it has tries. */
  lemma CodesPerPage(verifying: map<nat, Verifying>, born: map<string, Birth>, passes: map<string, nat>,
    requests: map<string, LoginRequest>, drawn: set<string>, page: string)
    requires Budget(verifying, born, passes) && Pages(requests, passes, drawn)
    ensures |BornOf(born, page)| <= MAX_ATTEMPTS
  {
    assert |BornOf(born, page)| + |Flying(verifying, page)| <= PassesOf(passes, page);
  }

  lemma Undrawn(at: Setup, codes: map<string, Grant>, exchanging: map<nat, Exchanging>, drawn: set<string>,
    born: map<string, Birth>, redeemed: map<string, TokenForm>, issued: map<string, string>, id: string)
    requires Codes(at, codes, exchanging, drawn, born, redeemed, issued) && id !in drawn
    ensures id !in born && id !in codes
  {
  }

  /** A random token nobody drew before changes no invariant. */
  lemma Draw(at: Setup, codes: map<string, Grant>, exchanging: map<nat, Exchanging>, tokens: map<string, Grant>, drawn: set<string>,
    born: map<string, Birth>, redeemed: map<string, TokenForm>, issued: map<string, string>, id: string)
    requires Codes(at, codes, exchanging, drawn, born, redeemed, issued) && Tokens(at, tokens, drawn, born, redeemed, issued)
    ensures Codes(at, codes, exchanging, drawn + {id}, born, redeemed, issued) && Tokens(at, tokens, drawn + {id}, born, redeemed, issued)
  {
  }

  lemma CodeMinted(at: Setup, codes: map<string, Grant>, exchanging: map<nat, Exchanging>, tokens: map<string, Grant>, drawn: set<string>,
    born: map<string, Birth>, redeemed: map<string, TokenForm>, issued: map<string, string>, code: string, birth: Birth)
    requires Codes(at, codes, exchanging, drawn, born, redeemed, issued) && Tokens(at, tokens, drawn, born, redeemed, issued)
    requires code !in drawn
    ensures Codes(at, codes[code := birth.grant], exchanging, drawn + {code}, born[code := birth], redeemed, issued)
    ensures Tokens(at, tokens, drawn + {code}, born[code := birth], redeemed, issued)
  {
    hide Redeems;
  }

  lemma MintKeeps(at: Setup, requests: map<string, LoginRequest>, passes: map<string, nat>, verifying: map<nat, Verifying>,
    codes: map<string, Grant>, exchanging: map<nat, Exchanging>, tokens: map<string, Grant>, drawn: set<string>,
    born: map<string, Birth>, redeemed: map<string, TokenForm>, issued: map<string, string>, h: nat, code: string, g: Grant)
    requires Pages(requests, passes, drawn) && Budget(verifying, born, passes) && h in verifying && code !in drawn
    requires Codes(at, codes, exchanging, drawn, born, redeemed, issued) && Tokens(at, tokens, drawn, born, redeemed, issued)
    ensures code !in born
    ensures
      var born1 := born[code := Birth(verifying[h].page, g)];
      && Pages(requests - {verifying[h].page}, passes, drawn + {code}) && Budget(verifying - {h}, born1, passes)
      && Codes(at, codes[code := g], exchanging, drawn + {code}, born1, redeemed, issued)
      && Tokens(at, tokens, drawn + {code}, born1, redeemed, issued)
  {
    hide Pages, Budget, Codes, Tokens;
    var birth := Birth(verifying[h].page, g);
    Undrawn(at, codes, exchanging, drawn, born, redeemed, issued, code);
    CodeMinted(at, codes, exchanging, tokens, drawn, born, redeemed, issued, code, birth);
    BudgetEnd(verifying, born, passes, h, code, birth);
    PagesClose(requests, passes, drawn, birth.page);
    PagesDraw(requests - {birth.page}, passes, drawn, code);
  }

  lemma CodeTaken(at: Setup, codes: map<string, Grant>, exchanging: map<nat, Exchanging>, tokens: map<string, Grant>, drawn: set<string>,
    born: map<string, Birth>, redeemed: map<string, TokenForm>, issued: map<string, string>, f: TokenForm, h: nat, now: int)
    requires Codes(at, codes, exchanging, drawn, born, redeemed, issued) && Tokens(at, tokens, drawn, born, redeemed, issued)
    requires f.code in codes && h !in exchanging
    ensures Codes(at, codes - {f.code}, exchanging, drawn, born, redeemed[f.code := f], issued)
    ensures Redeems(at, codes[f.code], f) ==>
      Codes(at, codes - {f.code}, exchanging[h := Exchanging(f.code, codes[f.code], now)], drawn, born, redeemed[f.code := f], issued)
    ensures Tokens(at, tokens, drawn, born, redeemed[f.code := f], issued)
  {
    hide Redeems;
    assert forall access <- issued :: issued[access] in issued.Values;
  }

  lemma ValuesAdd(m: map<string, string>, k: string, v: string)
    requires k !in m
    ensures m[k := v].Values == m.Values + {v}
  {
    forall x <- m.Values
      ensures x in m[k := v].Values
    {
      var a :| a in m && m[a] == x;
      assert m[k := v][a] == x;
    }
    assert m[k := v][k] == v;
  }

  lemma TokenMinted(at: Setup, codes: map<string, Grant>, exchanging: map<nat, Exchanging>, tokens: map<string, Grant>, drawn: set<string>,
    born: map<string, Birth>, redeemed: map<string, TokenForm>, issued: map<string, string>, h: nat, access: string, g: Grant)
    requires Codes(at, codes, exchanging, drawn, born, redeemed, issued) && Tokens(at, tokens, drawn, born, redeemed, issued)
    requires access !in drawn && h in exchanging && g.who == exchanging[h].grant.who
    ensures access !in issued
    ensures Codes(at, codes, exchanging - {h}, drawn + {access}, born, redeemed, issued[access := exchanging[h].code])
    ensures Tokens(at, tokens[access := g], drawn + {access}, born, redeemed, issued[access := exchanging[h].code])
  {
    hide Redeems;
    ValuesAdd(issued, access, exchanging[h].code);
    assert forall a <- issued :: issued[a] in issued.Values;
  }

  lemma Swept(at: Setup, codes: map<string, Grant>, exchanging: map<nat, Exchanging>, tokens: map<string, Grant>, drawn: set<string>,
    born: map<string, Birth>, redeemed: map<string, TokenForm>, issued: map<string, string>, now: int)
    requires Codes(at, codes, exchanging, drawn, born, redeemed, issued) && Tokens(at, tokens, drawn, born, redeemed, issued)
    ensures Codes(at, Unexpired(codes, now), exchanging, drawn, born, redeemed, issued)
    ensures Tokens(at, Unexpired(tokens, now), drawn, born, redeemed, issued)
  {
    hide Redeems;
  }

  /** A page that minted is closed for good, and verifies are of pages once opened. */
  ghost predicate Closing(requests: map<string, LoginRequest>, verifying: map<nat, Verifying>, born: map<string, Birth>,
    passes: map<string, nat>)
  {
    && (forall code <- born :: born[code].page in passes && born[code].page !in requests)
    && (forall h <- verifying :: verifying[h].page in passes)
  }

  ghost predicate Valid(at: Setup, s: State) {
    && Pages(s.requests, s.passes, s.drawn)
    && Budget(s.verifying, s.born, s.passes)
    && Codes(at, s.codes, s.exchanging, s.drawn, s.born, s.redeemed, s.issued)
    && Tokens(at, s.tokens, s.drawn, s.born, s.redeemed, s.issued)
    && Closing(s.requests, s.verifying, s.born, s.passes)
  }

  lemma StartValid(at: Setup)
    ensures Valid(at, START)
  {
    assert forall page :: BornOf(map[], page) == {} && Flying(map[], page) == {};
  }

  lemma OpenKeeps(at: Setup, s: State, q: AuthorizeQuery, chains: nat, id: string, now: int)
    requires Valid(at, s) && id !in s.drawn
    ensures Valid(at, Opened(at, s, q, chains, id, now))
  {
    hide Pages, Budget, Codes, Tokens, Closing, Accepts, Page;
    Draw(at, s.codes, s.exchanging, s.tokens, s.drawn, s.born, s.redeemed, s.issued, id);
    PagesDraw(s.requests, s.passes, s.drawn, id);
    if Admits(at, s, q, chains) {
      ClosingOpen(s.requests, s.verifying, s.born, s.passes, s.drawn, id, Page(q, now));
      AdmitKeeps(s.requests, s.verifying, s.born, s.passes, s.drawn, id, q, now);
    }
  }

  lemma AdmitKeeps(requests: map<string, LoginRequest>, verifying: map<nat, Verifying>, born: map<string, Birth>,
    passes: map<string, nat>, drawn: set<string>, id: string, q: AuthorizeQuery, now: int)
    requires Pages(requests, passes, drawn) && Budget(verifying, born, passes) && id !in drawn && |requests| < MAX_PENDING
    ensures Pages(requests[id := Page(q, now)], passes[id := 0], drawn + {id}) && Budget(verifying, born, passes[id := 0])
  {
    hide Pages, Budget;
    PagesOpen(requests, passes, drawn, id, Page(q, now));
    BudgetOpen(verifying, born, passes, id);
  }

  lemma ClosingOpen(requests: map<string, LoginRequest>, verifying: map<nat, Verifying>, born: map<string, Birth>,
    passes: map<string, nat>, drawn: set<string>, id: string, req: LoginRequest)
    requires Pages(requests, passes, drawn) && Closing(requests, verifying, born, passes) && id !in drawn
    ensures Closing(requests[id := req], verifying, born, passes[id := 0])
  {
  }

  lemma ClosingPass(requests: map<string, LoginRequest>, verifying: map<nat, Verifying>, born: map<string, Birth>,
    passes: map<string, nat>, h: nat, v: Verifying, req: LoginRequest, n: nat)
    requires Closing(requests, verifying, born, passes) && v.page in requests && v.page in passes
    ensures Closing(requests[v.page := req], verifying[h := v], born, passes[v.page := n])
  {
  }

  lemma ClosingDrop(requests: map<string, LoginRequest>, verifying: map<nat, Verifying>, born: map<string, Birth>,
    passes: map<string, nat>, page: string)
    requires Closing(requests, verifying, born, passes)
    ensures Closing(requests - {page}, verifying, born, passes)
  {
  }

  lemma GateKeeps(at: Setup, s: State, h: nat, page: string, now: int)
    requires Valid(at, s) && h !in s.verifying
    ensures Valid(at, Gated(s, h, page, now))
  {
    hide Pages, Budget, Codes, Tokens, Closing;
    if LetsIn(s, page, now) {
      EnterKeeps(at, s, h, page, now);
    } else {
      PagesClose(s.requests, s.passes, s.drawn, page);
      ClosingDrop(s.requests, s.verifying, s.born, s.passes, page);
    }
  }

  lemma EnterKeeps(at: Setup, s: State, h: nat, page: string, now: int)
    requires Valid(at, s) && h !in s.verifying && LetsIn(s, page, now)
    ensures Valid(at, Gated(s, h, page, now))
  {
    hide Pages, Budget, Codes, Tokens, Closing;
    var req := Tried(s.requests[page]);
    PagesPass(s.requests, s.passes, s.drawn, page);
    BudgetPass(s.verifying, s.born, s.passes, h, Verifying(page, req, now));
    ClosingPass(s.requests, s.verifying, s.born, s.passes, h, Verifying(page, req, now), req, s.passes[page] + 1);
  }

  lemma CodeKeeps(at: Setup, s: State, h: nat, sub: string, name: string, via: Delegation, code: string)
    requires Valid(at, s) && h in s.verifying && code !in s.drawn
    ensures Valid(at, Coded(s, h, sub, name, via, code)) && code !in s.born
  {
    hide Pages, Budget, Codes, Tokens, Minted;
    MintKeeps(at, s.requests, s.passes, s.verifying, s.codes, s.exchanging, s.tokens, s.drawn, s.born, s.redeemed, s.issued, h, code,
              Minted(s.verifying[h], sub, name, via));
  }

  lemma TakeKeeps(at: Setup, s: State, h: nat, f: TokenForm, now: int)
    requires Valid(at, s) && h !in s.exchanging
    ensures Valid(at, Took(at, s, h, f, now))
  {
    hide Pages, Budget, Codes, Tokens, Redeems, Authenticates, Closing;
    if f.code in s.codes {
      CodeTaken(at, s.codes, s.exchanging, s.tokens, s.drawn, s.born, s.redeemed, s.issued, f, h, now);
    }
  }

  lemma TokenKeeps(at: Setup, s: State, h: nat, access: string)
    requires Valid(at, s) && h in s.exchanging && access !in s.drawn
    ensures Valid(at, Tokened(s, h, access)) && access !in s.issued
  {
    hide Pages, Budget, Codes, Tokens, Closing;
    var e := s.exchanging[h];
    TokenMinted(at, s.codes, s.exchanging, s.tokens, s.drawn, s.born, s.redeemed, s.issued, h, access,
                AccessTo(e));
    PagesDraw(s.requests, s.passes, s.drawn, access);
  }

  lemma CleanKeeps(at: Setup, s: State, now: int)
    requires Valid(at, s)
    ensures Valid(at, Cleaned(s, now))
  {
    hide Pages, Budget, Codes, Tokens;
    Swept(at, s.codes, s.exchanging, s.tokens, s.drawn, s.born, s.redeemed, s.issued, now);
    PagesSwept(s.requests, s.passes, s.drawn, now);
  }

  lemma AfterKeeps(at: Setup, s: State, e: Event)
    requires Valid(at, s)
    ensures Valid(at, After(at, s, e))
  {
    hide Valid, Opened, Gated, Ended, Coded, Took, Tokened, Cleaned;
    if CanHappen(s, e) {
      match e {
        case Opens(q, chains, id, now) => OpenKeeps(at, s, q, chains, id, now);
        case PassesGate(h, page, now) => GateKeeps(at, s, h, page, now);
        case GivesUp(h) => EndKeeps(at, s, h);
        case Mints(h, sub, name, via, code) => CodeKeeps(at, s, h, sub, name, via, code);
        case Takes(h, f, now) => TakeKeeps(at, s, h, f, now);
        case Issues(h, access) => TokenKeeps(at, s, h, access);
        case Sweeps(now) => CleanKeeps(at, s, now);
      }
    }
  }

  lemma EndKeeps(at: Setup, s: State, h: nat)
    requires Valid(at, s) && h in s.verifying
    ensures Valid(at, Ended(s, h))
  {
    hide Pages, Budget, Codes, Tokens;
    VerifyDone(s.verifying, s.born, s.passes, h);
  }

  // ----- every interleaving -----

  /** Under every interleaving: open pages within their cap, no page past its tries,
      one token at most for each code, and every token what its code's verify found. */
  lemma {:induction false} RunKeeps(at: Setup, s: State, events: seq<Event>)
    requires Valid(at, s)
    ensures Valid(at, RunOf(at, s, events))
    decreases |events|
  {
    hide Valid, After;
    if events != [] {
      RunKeeps(at, s, events[..|events| - 1]);
      AfterKeeps(at, RunOf(at, s, events[..|events| - 1]), events[|events| - 1]);
    }
  }

  /** The state the i-th event meets. */
  function Met(at: Setup, s: State, events: seq<Event>, i: nat): State
    requires i <= |events|
  {
    RunOf(at, s, events[..i])
  }

  predicate Makes(at: Setup, s: State, events: seq<Event>, i: nat)
    requires i < |events|
  {
    CanHappen(Met(at, s, events, i), events[i])
  }

  lemma MetNext(at: Setup, s: State, events: seq<Event>, i: nat)
    requires i < |events|
    ensures Met(at, s, events, i + 1) == After(at, Met(at, s, events, i), events[i])
  {
    assert events[..i + 1][..i] == events[..i];
  }

  /** The codes are exactly those that some verify past its gate minted, each with
      what that verify found; no later section changes one. */
  lemma {:induction false} CodesExactly(at: Setup, s: State, events: seq<Event>, n: nat, code: string)
    requires Valid(at, s) && n <= |events|
    ensures code in Met(at, s, events, n).born <==>
      code in s.born || exists i :: 0 <= i < n && Makes(at, s, events, i) && events[i].Mints? && events[i].code == code
    ensures code in s.born ==> Met(at, s, events, n).born[code] == s.born[code]
    ensures forall i :: 0 <= i < n && Makes(at, s, events, i) && events[i].Mints? && events[i].code == code ==>
      var v := Met(at, s, events, i).verifying[events[i].h];
      code in Met(at, s, events, n).born
      && Met(at, s, events, n).born[code] == Birth(v.page, Minted(v, events[i].sub, events[i].name, events[i].via))
    decreases n
  {
    hide Minted, Valid, Opened, Gated, Took, Tokened, Cleaned, RunOf, Met, CanHappen;
    if n == 0 {
      MetStart(at, s, events);
    } else {
      CodesExactly(at, s, events, n - 1, code);
      MetNext(at, s, events, n - 1);
      MetValid(at, s, events, n - 1);
      BornNext(at, Met(at, s, events, n - 1), events[n - 1], code);
    }
  }

  lemma MetStart(at: Setup, s: State, events: seq<Event>)
    ensures Met(at, s, events, 0) == s
  {
    assert events[..0] == [];
  }

  lemma MetValid(at: Setup, s: State, events: seq<Event>, i: nat)
    requires Valid(at, s) && i <= |events|
    ensures Valid(at, Met(at, s, events, i))
  {
    hide Valid;
    RunKeeps(at, s, events[..i]);
  }

  lemma BornNext(at: Setup, s: State, e: Event, code: string)
    requires Valid(at, s)
    ensures
      var t := After(at, s, e);
      if CanHappen(s, e) && e.Mints? && e.code == code
      then code !in s.born && code in t.born
           && t.born[code] == Birth(s.verifying[e.h].page, Minted(s.verifying[e.h], e.sub, e.name, e.via))
      else (code in t.born <==> code in s.born) && (code in s.born ==> t.born[code] == s.born[code])
  {
    hide Valid, Opened, Gated, Ended, Took, Tokened, Cleaned, Minted;
    if CanHappen(s, e) {
      if e.Mints? { CodeKeeps(at, s, e.h, e.sub, e.name, e.via, e.code); } else { NothingBorn(at, s, e); }
    }
  }

  lemma NothingBorn(at: Setup, s: State, e: Event)
    requires !e.Mints?
    ensures After(at, s, e).born == s.born
  {
    hide Opened, Gated, Ended, Coded, Took, Tokened, Cleaned, CanHappen, Minted;
  }

  /** Likewise the access tokens: exactly those issued to an exchange that held a
      code, each for that code. */
  lemma {:induction false} TokensExactly(at: Setup, s: State, events: seq<Event>, n: nat, access: string)
    requires Valid(at, s) && n <= |events|
    ensures access in Met(at, s, events, n).issued <==>
      access in s.issued || exists i :: 0 <= i < n && Makes(at, s, events, i) && events[i].Issues? && events[i].access == access
    ensures access in s.issued ==> Met(at, s, events, n).issued[access] == s.issued[access]
    ensures forall i :: 0 <= i < n && Makes(at, s, events, i) && events[i].Issues? && events[i].access == access ==>
      access in Met(at, s, events, n).issued
      && Met(at, s, events, n).issued[access] == Met(at, s, events, i).exchanging[events[i].h].code
    decreases n
  {
    hide Valid, Opened, Gated, Took, Coded, Cleaned, RunOf, Met, CanHappen;
    if n == 0 {
      MetStart(at, s, events);
    } else {
      TokensExactly(at, s, events, n - 1, access);
      MetNext(at, s, events, n - 1);
      MetValid(at, s, events, n - 1);
      IssuedNext(at, Met(at, s, events, n - 1), events[n - 1], access);
    }
  }

  lemma IssuedNext(at: Setup, s: State, e: Event, access: string)
    requires Valid(at, s)
    ensures
      var t := After(at, s, e);
      if CanHappen(s, e) && e.Issues? && e.access == access
      then access !in s.issued && access in t.issued && t.issued[access] == s.exchanging[e.h].code
      else (access in t.issued <==> access in s.issued) && (access in s.issued ==> t.issued[access] == s.issued[access])
  {
    hide Valid, Opened, Gated, Ended, Took, Coded, Cleaned;
    if CanHappen(s, e) {
      if e.Issues? { TokenKeeps(at, s, e.h, e.access); } else { NothingIssued(at, s, e); }
    }
  }

  lemma NothingIssued(at: Setup, s: State, e: Event)
    requires !e.Issues?
    ensures After(at, s, e).issued == s.issued
  {
    hide Opened, Gated, Ended, Coded, Took, Tokened, Cleaned, CanHappen, Minted;
  }

  /** Event `i` minted the code that event `j` issued the token for, and the token,
      while it lasts, tells what the verify of event `i` found. */
  ghost predicate Tells(at: Setup, events: seq<Event>, i: nat, j: nat, access: string)
    requires i < |events| && j < |events|
  {
    var t := RunOf(at, START, events);
    && Makes(at, START, events, i) && events[i].Mints? && events[i].h in Met(at, START, events, i).verifying
    && Makes(at, START, events, j) && events[j].Issues? && events[j].access == access
    && access in t.issued && t.issued[access] == events[i].code
    && (access in t.tokens ==>
          t.tokens[access].who
          == Identity(events[i].sub, events[i].name, Met(at, START, events, i).verifying[events[i].h].now, events[i].via))
  }

  /** Every access token has its own code, and carries the identity and delegation of
      the verify that minted it. */
  lemma TokenTells(at: Setup, events: seq<Event>, access: string)
    requires access in RunOf(at, START, events).issued
    ensures exists i, j :: 0 <= i < |events| && 0 <= j < |events| && Tells(at, events, i, j, access)
    ensures var issued := RunOf(at, START, events).issued;
            forall other <- issued :: other != access ==> issued[other] != issued[access]
  {
    StartValid(at);
    var n, t := |events|, RunOf(at, START, events);
    assert events[..n] == events && Met(at, START, events, n) == t;
    RunKeeps(at, START, events);
    var code := t.issued[access];
    CodesExactly(at, START, events, n, code);
    TokensExactly(at, START, events, n, access);
    Origin(at, t, access);
    hide Valid, RunOf, Minted, Met, CanHappen;
    var i :| 0 <= i < n && Makes(at, START, events, i) && events[i].Mints? && events[i].code == code;
    var j :| 0 <= j < n && Makes(at, START, events, j) && events[j].Issues? && events[j].access == access;
    MintersVerify(Met(at, START, events, i), events[i]);
    MintedWho(Met(at, START, events, i).verifying[events[i].h], events[i].sub, events[i].name, events[i].via);
    assert Tells(at, events, i, j, access);
  }

  lemma Origin(at: Setup, s: State, access: string)
    requires Valid(at, s) && access in s.issued
    ensures s.issued[access] in s.born && (access in s.tokens ==> s.tokens[access].who == s.born[s.issued[access]].grant.who)
    ensures forall other <- s.issued :: other != access ==> s.issued[other] != s.issued[access]
  {
    hide Pages, Budget, Codes, Closing, Redeems;
  }

  lemma MintedWho(v: Verifying, sub: string, name: string, via: Delegation)
    ensures Minted(v, sub, name, via).who == Identity(sub, name, v.now, via)
  {
  }

  /** How many of the first `n` events passed the page's gate. */
  function GatePasses(at: Setup, s: State, events: seq<Event>, n: nat, page: string): nat
    requires n <= |events|
  {
    if n == 0 then 0
    else GatePasses(at, s, events, n - 1, page) + if Enters(at, s, events, n - 1, page) then 1 else 0
  }

  predicate Enters(at: Setup, s: State, events: seq<Event>, i: nat, page: string)
    requires i < |events|
  {
    var e := events[i];
    Makes(at, s, events, i) && e.PassesGate? && e.page == page && LetsIn(Met(at, s, events, i), page, e.now)
  }

  /** The count the cap is about: every verify that ever passed the page's gate. */
  lemma {:induction false} PassesExactly(at: Setup, s: State, events: seq<Event>, n: nat, page: string)
    requires Valid(at, s) && n <= |events|
    ensures PassesOf(Met(at, s, events, n).passes, page) == PassesOf(s.passes, page) + GatePasses(at, s, events, n, page)
    ensures GatePasses(at, s, events, n, page) <= MAX_ATTEMPTS
    decreases n
  {
    hide Valid, RunOf, Met, After, CanHappen, LetsIn;
    if n == 0 {
      MetStart(at, s, events);
    } else {
      PassesExactly(at, s, events, n - 1, page);
      MetNext(at, s, events, n - 1);
      MetValid(at, s, events, n - 1);
      PassesNext(at, Met(at, s, events, n - 1), events[n - 1], page);
      MetValid(at, s, events, n);
      WithinTries(at, Met(at, s, events, n), page);
    }
  }

  lemma WithinTries(at: Setup, s: State, page: string)
    requires Valid(at, s)
    ensures PassesOf(s.passes, page) <= MAX_ATTEMPTS
  {
    hide Budget, Codes, Tokens, Closing;
  }

  lemma PassesNext(at: Setup, s: State, e: Event, page: string)
    requires Valid(at, s)
    ensures PassesOf(After(at, s, e).passes, page) == PassesOf(s.passes, page)
      + if CanHappen(s, e) && e.PassesGate? && e.page == page && LetsIn(s, page, e.now) then 1 else 0
  {
    hide Budget, Codes, Tokens, Closing, Opened, Gated, Ended, Coded, Took, Tokened, Cleaned, Minted, LetsIn;
  }

  // ----- two codes of one page -----

  /** Once a page has minted, no verify passes its gate any more. */
  lemma ClosedForGood(at: Setup, s: State, code: string, now: int)
    requires Valid(at, s) && code in s.born
    ensures !LetsIn(s, s.born[code].page, now)
  {
    hide Pages, Budget, Codes, Tokens;
  }

  predicate HasMinted(s: State, page: string) { exists code <- s.born :: s.born[code].page == page }

  /** So a verify of such a page was past the gate before. */
  lemma {:induction false} StillVerifying(at: Setup, s: State, events: seq<Event>, n: nat, h: nat, page: string)
    requires Valid(at, s) && HasMinted(s, page) && n <= |events|
    ensures HasMinted(Met(at, s, events, n), page)
    ensures var t := Met(at, s, events, n);
            h in t.verifying && t.verifying[h].page == page ==> h in s.verifying && s.verifying[h].page == page
    decreases n
  {
    hide Valid, RunOf, Met, After;
    if n == 0 {
      MetStart(at, s, events);
    } else {
      StillVerifying(at, s, events, n - 1, h, page);
      MetNext(at, s, events, n - 1);
      MetValid(at, s, events, n - 1);
      VerifyingNext(at, Met(at, s, events, n - 1), events[n - 1], h, page);
    }
  }

  lemma VerifyingNext(at: Setup, s: State, e: Event, h: nat, page: string)
    requires Valid(at, s) && HasMinted(s, page)
    ensures var t := After(at, s, e);
            HasMinted(t, page)
            && (h in t.verifying && t.verifying[h].page == page ==> h in s.verifying && s.verifying[h].page == page)
  {
    var code :| code in s.born && s.born[code].page == page;
    BornNext(at, s, e, code);
    if e.PassesGate? { ClosedForGood(at, s, code, e.now); }
    if h in After(at, s, e).verifying { VerifyingFrame(at, s, e, h); }
  }

  lemma VerifyingFrame(at: Setup, s: State, e: Event, h: nat)
    requires h in After(at, s, e).verifying
    ensures var t := After(at, s, e);
            || (h in s.verifying && t.verifying[h] == s.verifying[h])
            || (e.PassesGate? && LetsIn(s, e.page, e.now) && t.verifying[h].page == e.page)
  {
    hide Opened, Gated, Ended, Coded, Took, Tokened, Cleaned, Minted;
  }

  /** Exactly when a page that has minted can mint again: while another of its
      verifies is past the gate. */
  lemma SecondCodeIff(at: Setup, s: State, page: string, code: string)
    requires Valid(at, s) && HasMinted(s, page) && code !in s.drawn
    ensures (exists h <- s.verifying :: s.verifying[h].page == page) <==>
            exists events: seq<Event> :: MintsNew(s, RunOf(at, s, events), page)
  {
    hide Valid, After, RunOf, MintsNew, HasMinted;
    if h :| h in s.verifying && s.verifying[h].page == page {
      MintOne(at, s, h, code);
    }
    if events: seq<Event> :| MintsNew(s, RunOf(at, s, events), page) {
      NewFromVerify(at, s, events, page);
    }
  }

  predicate MintsNew(s: State, t: State, page: string) {
    exists code <- t.born :: code !in s.born && t.born[code].page == page
  }

  lemma MintOne(at: Setup, s: State, h: nat, code: string)
    requires Valid(at, s) && h in s.verifying && code !in s.drawn
    ensures MintsNew(s, RunOf(at, s, [Mints(h, "", "", Own, code)]), s.verifying[h].page)
  {
    hide Valid, After;
    var e := Mints(h, "", "", Own, code);
    assert [e][..0] == [];
    assert RunOf(at, s, [e][..0]) == s;
    BornNext(at, s, e, code);
  }

  lemma NewFromVerify(at: Setup, s: State, events: seq<Event>, page: string)
    requires Valid(at, s) && HasMinted(s, page) && MintsNew(s, RunOf(at, s, events), page)
    ensures exists h <- s.verifying :: s.verifying[h].page == page
  {
    hide Valid, After, HasMinted, CanHappen;
    assert events[..|events|] == events;
    var code :| code in RunOf(at, s, events).born && code !in s.born && RunOf(at, s, events).born[code].page == page;
    CodesExactly(at, s, events, |events|, code);
    var i :| 0 <= i < |events| && Makes(at, s, events, i) && events[i].Mints? && events[i].code == code;
    StillVerifying(at, s, events, i, events[i].h, page);
    MintersVerify(Met(at, s, events, i), events[i]);
  }

  lemma MintersVerify(s: State, e: Event)
    requires CanHappen(s, e) && e.Mints?
    ensures e.h in s.verifying
  {
  }

  lemma RunMore(at: Setup, s: State, events: seq<Event>, e: Event)
    ensures RunOf(at, s, events + [e]) == After(at, RunOf(at, s, events), e)
  {
    assert (events + [e])[..|events|] == events;
  }

  lemma BothPastTheGate(at: Setup, q: AuthorizeQuery)
    requires Accepts(at.cfg, q)
    ensures
      var t := RunOf(at, START, [Opens(q, 1, "page", 0)] + [PassesGate(1, "page", 0)] + [PassesGate(2, "page", 0)]);
      && t.drawn == {"page"} && 1 in t.verifying && 2 in t.verifying
      && t.verifying[1].page == "page" == t.verifying[2].page
  {
    hide Accepts, Opened, Gated;
    var e := Opens(q, 1, "page", 0);
    RunMore(at, START, [], e);
    assert [] + [e] == [e];
    RunMore(at, START, [e], PassesGate(1, "page", 0));
    RunMore(at, START, [e] + [PassesGate(1, "page", 0)], PassesGate(2, "page", 0));
    var open := Opened(at, START, q, 1, "page", 0);
    assert LetsIn(open, "page", 0);
    var one := Gated(open, 1, "page", 0);
    assert LetsIn(one, "page", 0);
  }

  /** And such a run there is: two verifies past the gate before either mints leave
      two codes of one page, for two accounts. */
  lemma TwoCodesOnePage(at: Setup, q: AuthorizeQuery, a: string, b: string) returns (events: seq<Event>)
    requires Accepts(at.cfg, q)
    ensures var t := RunOf(at, START, events);
      && "c" in t.born && "d" in t.born && t.born["c"].page == t.born["d"].page
      && t.born["c"].grant.who.sub == a && t.born["d"].grant.who.sub == b
  {
    hide Accepts, Gated, Opened;
    BothPastTheGate(at, q);
    var first := [Opens(q, 1, "page", 0)] + [PassesGate(1, "page", 0)] + [PassesGate(2, "page", 0)];
    var mintA, mintB := Mints(1, a, "anna", Own, "c"), Mints(2, b, "bert", Own, "d");
    RunMore(at, START, first, mintA);
    RunMore(at, START, first + [mintA], mintB);
    var s := RunOf(at, START, first);
    var t := Coded(s, 1, a, "anna", Own, "c");
    assert t.drawn == {"page", "c"} && 2 in t.verifying;
    events := first + [mintA] + [mintB];
    hide RunOf;
  }
}
