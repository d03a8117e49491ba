/** The sign-in server's critical sections in place, held to the values of CodeFlow. */
module Oidc {
  import opened CodeFlow

  class Server {
    const at: Setup
    var requests: map<string, LoginRequest>
    var codes: map<string, Grant>
    var tokens: map<string, Grant>
    /** The local variables of the handlers between their critical sections. */
    var verifying: map<nat, Verifying>
    var exchanging: map<nat, Exchanging>
    /** Every random token drawn so far. */
    var drawn: set<string>
    ghost var passes: map<string, nat>
    ghost var born: map<string, Birth>
    ghost var redeemed: map<string, TokenForm>
    ghost var issued: map<string, string>

    ghost function Now(): State
      reads this
    {
      State(requests, codes, tokens, verifying, exchanging, drawn, passes, born, redeemed, issued)
    }

    constructor (at: Setup)
      ensures this.at == at && Now() == START
    {
      this.at := at;
      requests, codes, tokens, verifying, exchanging := map[], map[], map[], map[], map[];
      drawn, passes, born, redeemed, issued := {}, map[], map[], map[], map[];
    }

    /** Opens a login page under a random token. */
    method Authorize(q: AuthorizeQuery, chains: nat, id: string, now: int) returns (ok: bool)
      requires id !in drawn
      modifies this`requests, this`drawn, this`passes
      ensures ok == (Accepts(at.cfg, q) && chains > 0 && |old(requests)| < MAX_PENDING)
      ensures Now() == Opened(at, old(Now()), q, chains, id, now)
    {
      drawn := drawn + {id};
      if !Accepts(at.cfg, q) || chains == 0 || |requests| >= MAX_PENDING {
        return false;
      }
      requests := requests[id := LoginRequest(q.state, q.nonce, q.codeChallenge, now + REQUEST_TTL, 0)];
      passes := passes[id := 0];
      ok := true;
    }

    /** A verify's first critical section: past the gate, or the page is gone. */
    method VerifyGate(h: nat, page: string, now: int) returns (ok: bool)
      requires h !in verifying
      modifies this`requests, this`verifying, this`passes
      ensures ok == LetsIn(old(Now()), page, now)
      ensures Now() == Gated(old(Now()), h, page, now)
    {
      ok := page in requests;
      if !ok { Absent(requests, page); }
      if ok && now > requests[page].expires {
        requests := requests - {page};
        ok := false;
      }
      if ok {
        var req := requests[page].(attempts := requests[page].attempts + 1);
        Overwritten(requests, page, req);
        requests := requests[page := req];
        if req.attempts > MAX_ATTEMPTS {
          requests := requests - {page};
          ok := false;
        } else {
          passes := passes[page := PassesOf(passes, page) + 1];
          verifying := verifying[h := Verifying(page, req, now)];
        }
      }
    }

    /** A verify ends without a code: a bad signature, no membership, no name. */
    method VerifyFails(h: nat)
      requires h in verifying
      modifies this`verifying
      ensures Now() == Ended(old(Now()), h)
    {
      verifying := verifying - {h};
    }

    /** A verify's second critical section: the page closes and a code is minted. */
    method VerifyMint(h: nat, sub: string, name: string, via: Delegation, code: string)
      requires h in verifying && code !in drawn
      modifies this`requests, this`verifying, this`codes, this`drawn, this`born
      ensures Now() == Coded(old(Now()), h, sub, name, via, code)
    {
      var v := verifying[h];
      requests := requests - {v.page};
      var g := Grant(Identity(sub, name, v.now, via), v.req.nonce, v.req.codeChallenge, v.now + CODE_TTL);
      codes := codes[code := g];
      verifying := verifying - {h};
      drawn := drawn + {code};
      born := born[code := Birth(v.page, g)];
    }

    /** A token exchange's first critical section: the code is gone whatever
        comes of it. */
    method TokenTake(h: nat, f: TokenForm, now: int) returns (ok: bool)
      requires h !in exchanging
      modifies this`codes, this`exchanging, this`redeemed
      ensures ok == (Authenticates(at.cfg, f) && f.code in old(codes) && now <= old(codes)[f.code].expires
                     && Redeems(at, old(codes)[f.code], f))
      ensures Now() == Took(at, old(Now()), h, f, now)
    {
      if !Authenticates(at.cfg, f) {
        return false;
      }
      if f.code !in codes {
        return false;
      }
      var g := codes[f.code];
      codes := codes - {f.code};
      redeemed := redeemed[f.code := f];
      if now > g.expires || f.redirectUri != at.cfg.redirectUri {
        return false;
      }
      if g.codeChallenge != "" && (f.verifier == "" || at.s256(f.verifier) != g.codeChallenge) {
        return false;
      }
      exchanging := exchanging[h := Exchanging(f.code, g, now)];
      ok := true;
    }

    /** Its second: the access token. */
    method TokenMint(h: nat, access: string)
      requires h in exchanging && access !in drawn
      modifies this`tokens, this`exchanging, this`drawn, this`issued
      ensures Now() == Tokened(old(Now()), h, access)
    {
      var e := exchanging[h];
      tokens := tokens[access := Grant(e.grant.who, "", "", e.now + TOKEN_TTL)];
      exchanging := exchanging - {h};
      drawn := drawn + {access};
      issued := issued[access := e.code];
    }

    /** Drops what has expired. */
    method Sweep(now: int)
      modifies this`requests, this`codes, this`tokens
      ensures Now() == Cleaned(old(Now()), now)
    {
      requests := Unclosed(requests, now);
      codes := Unexpired(codes, now);
      tokens := Unexpired(tokens, now);
    }

    /** One critical section, of whichever handler; nothing when it cannot happen. */
    method Step(e: Event)
      modifies this
      ensures Now() == After(at, old(Now()), e)
    {
      hide Opened, Gated, Ended, Coded, Took, Tokened, Cleaned;
      var ok;
      match e {
        case Opens(q, chains, id, now) =>
          if id !in drawn { ok := Authorize(q, chains, id, now); }
        case PassesGate(h, page, now) =>
          if h !in verifying { ok := VerifyGate(h, page, now); }
        case GivesUp(h) =>
          if h in verifying { VerifyFails(h); }
        case Mints(h, sub, name, via, code) =>
          if h in verifying && code !in drawn { VerifyMint(h, sub, name, via, code); }
        case Takes(h, f, now) =>
          if h !in exchanging { ok := TokenTake(h, f, now); }
        case Issues(h, access) =>
          if h in exchanging && access !in drawn { TokenMint(h, access); }
        case Sweeps(now) =>
          Sweep(now);
      }
    }

    /** Any interleaving of critical sections is a run of the values. */
    method Run(events: seq<Event>)
      modifies this
      ensures Now() == RunOf(at, old(Now()), events)
      ensures CodeFlow.Valid(at, old(Now())) ==> CodeFlow.Valid(at, Now())
    {
      hide After, CodeFlow.Valid;
      var i := 0;
      while i < |events|
        invariant 0 <= i <= |events| && Now() == RunOf(at, old(Now()), events[..i])
      {
        assert events[..i + 1][..i] == events[..i];
        Step(events[i]);
        i := i + 1;
      }
      assert events[..i] == events;
      if CodeFlow.Valid(at, old(Now())) { RunKeeps(at, old(Now()), events); }
    }
  }
}
