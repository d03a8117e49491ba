/** What becomes of a post: how each attempt leaves it in the bridge's books, and
    which attempt put it there. */
module Fates {
  import opened Wrappers
  import opened Sets
  import opened StatusId
  import opened Discovery

  // ----- backoff -----

  /** One minute after the first failure, then twice as long each time, up to half an hour. */
  lemma DelayDoubles(attempts: nat)
    ensures Delay(0) == Delay(1) == 60_000_000_000
    ensures 1 <= attempts ==> Delay(attempts + 1) == if 2 * Delay(attempts) < 1_800_000_000_000 then 2 * Delay(attempts) else 1_800_000_000_000
  {
    assert Power2(0) == 1;
    if 1 <= attempts { assert Power2(attempts) == 2 * Power2(attempts - 1); }
  }

  /** The record of a post after one more failure at `now`. */
  function Failure(queue: map<string, Deferred>, st: Status, peer: string, now: int): Deferred {
    if st.uri in queue
    then var d := queue[st.uri];
         Deferred(d.status, d.peer, d.attempts + 1, (now + Delay(d.attempts + 1)) / 1_000_000_000, d.since)
    else Deferred(st, peer, 1, (now + 60_000_000_000) / 1_000_000_000, now / 1_000_000_000)
  }

  /** `d` after any number of further failures. */
  predicate Descends(d: Deferred, d1: Deferred) {
    && d1.status == d.status && d1.peer == d.peer && d1.since == d.since && d.attempts <= d1.attempts
    && (d1.attempts == d.attempts ==> d1 == d)
  }

  /** The queue and the holds only grow, and a record only by further failures. */
  ghost predicate Later(b: Books, c: Books) {
    && b.settled <= c.settled && b.unrouted <= c.unrouted
    && (forall uri <- b.queue :: uri in c.queue && Descends(b.queue[uri], c.queue[uri]))
    && (forall peer <- b.held :: peer in c.held && b.held[peer] <= c.held[peer])
  }

  /** One failure counted: that record, and no other. */
  lemma DeferringMeans(queue: map<string, Deferred>, st: Status, peer: string, now: int)
    ensures var q := Deferring(queue, st, peer, now);
      && st.uri in q && q[st.uri] == Failure(queue, st, peer, now)
      && (forall uri :: uri != st.uri ==> (uri in q <==> uri in queue) && (uri in queue ==> q[uri] == queue[uri]))
  {
    DelayDoubles(0);
    hide Delay;
  }

  /** The hold of one peer reaches at least to `until`, and of no other changes. */
  lemma ExtendedMeans(held: map<string, int>, peer: string, until: int)
    ensures var h := Extended(held, peer, until);
      && peer in h && h[peer] == (if peer in held && until < held[peer] then held[peer] else until)
      && (forall other :: other != peer ==> (other in h <==> other in held) && (other in held ==> h[other] == held[other]))
  {
  }

  lemma LaterTwice(a: Books, b: Books, c: Books)
    requires Later(a, b) && Later(b, c)
    ensures Later(a, c)
  {
  }

  /** Queued with this failure counted, and its peer held for the backoff. */
  ghost predicate Queued(b: Books, st: Status, peer: string, now: int, c: Books) {
    st.uri in c.queue && Descends(Failure(b.queue, st, peer, now), c.queue[st.uri])
  }

  ghost predicate HeldUntil(c: Books, peer: string, until: int) { peer in c.held && until <= c.held[peer] }

  lemma QueuedLater(b: Books, st: Status, peer: string, now: int, c: Books, d: Books)
    requires Queued(b, st, peer, now, c) && Later(c, d)
    ensures Queued(b, st, peer, now, d)
  {
  }

  // ----- one failure, one outbox pass, one status -----

  /** How an attempt that failed, made when the books were `b`, leaves the post in later books. */
  ghost predicate FailureFares(b: Books, st: Status, now: int, route: Route, c: Books) {
    match route(st.uri)
    case None => st.uri in c.unrouted
    case Some(peer) => Queued(b, st, peer, now, c) && HeldUntil(c, peer, now + 60_000_000_000)
  }

  /** When a failure cannot be booked: the instance throttles, or the queue is full. */
  predicate Sticks(b: Books, st: Status, outcome: Outcome, route: Route) {
    outcome == RateLimited || (route(st.uri).Some? && st.uri !in b.queue && |b.queue| >= 2000)
  }

  lemma FailingMeans(b: Books, st: Status, outcome: Outcome, now: int, route: Route)
    requires outcome != Done
    ensures Failing(b, st, outcome, now, route).None? <==> Sticks(b, st, outcome, route)
    ensures Failing(b, st, outcome, now, route).Some? ==>
      var c := Failing(b, st, outcome, now, route).value;
      && FailureFares(b, st, now, route, c) && Later(b, c)
      && c.settled == b.settled && c.unrouted == b.unrouted + (if route(st.uri).None? then {st.uri} else {})
      && c.queue.Keys == b.queue.Keys + if route(st.uri).None? then {} else {st.uri}
  {
    hide Deferring, Extended, Delay, Queued, HeldUntil, Later;
    match route(st.uri) {
      case None => if outcome == Failed { UnroutedLater(b, st.uri); }
      case Some(peer) => QueuesHolds(b, st, peer, now);
    }
  }

  lemma UnroutedLater(b: Books, uri: string)
    ensures Later(b, b.(unrouted := b.unrouted + {uri}))
  {}

  lemma QueuesHolds(b: Books, st: Status, peer: string, now: int)
    ensures var c := b.(queue := Deferring(b.queue, st, peer, now), held := Extended(b.held, peer, now + Delay(1)));
      Queued(b, st, peer, now, c) && HeldUntil(c, peer, now + 60_000_000_000) && Later(b, c)
    ensures Deferring(b.queue, st, peer, now).Keys == b.queue.Keys + {st.uri}
  {
    DelayDoubles(0);
    DeferringMeans(b.queue, st, peer, now);
    DeferringDescends(b.queue, st, peer, now);
    ExtendedMeans(b.held, peer, now + Delay(1));
    hide Deferring, Extended, Failure, Delay;
  }

  lemma DeferringDescends(queue: map<string, Deferred>, st: Status, peer: string, now: int)
    ensures var q := Deferring(queue, st, peer, now);
      q.Keys == queue.Keys + {st.uri} && forall uri <- queue :: uri in q && Descends(queue[uri], q[uri])
  {
    hide Delay;
  }

  /** How an outbox post fares. */
  ghost predicate PastFares(b: Books, p: Past, route: Route, c: Books) {
    if p.outcome == Done then p.uri in c.settled
    else Sticks(b, Status("", p.uri, false), p.outcome, route) || FailureFares(b, Status("", p.uri, false), p.now, route, c)
  }

  lemma PastMeans(b: Books, p: Past, route: Route)
    ensures var c := PastMet(b, p, route);
      && PastFares(b, p, route, c) && Later(b, c)
      && c.settled == b.settled + (if p.outcome == Done then {p.uri} else {})
      && (forall uri <- c.unrouted :: uri in b.unrouted || (uri == p.uri && p.outcome == Failed && route(uri).None?))
      && (forall uri <- c.queue :: uri in b.queue || (uri == p.uri && p.outcome == Failed && route(uri).Some?))
  {
    hide Failing, FailureFares, Sticks, Later;
    if p.outcome != Done { FailingMeans(b, Status("", p.uri, false), p.outcome, p.now, route); }
    SameLater(b);
    if p.outcome == Done { SettledLater(b, p.uri); }
    if p.outcome == RateLimited { ThrottledSticks(b, Status("", p.uri, false), route); }
  }

  lemma ThrottledSticks(b: Books, st: Status, route: Route)
    ensures Sticks(b, st, RateLimited, route)
  {}

  lemma SameLater(b: Books)
    ensures Later(b, b)
  {}

  lemma SettledLater(b: Books, uri: string)
    ensures Later(b, b.(settled := b.settled + {uri}))
  {}

  predicate CameTo(past: seq<Past>, uri: string, outcome: Outcome) { exists p <- past :: p.uri == uri && p.outcome == outcome }

  /** Why a uri is where it is in the books after an outbox pass: it was there, or an
      attempt of the pass on it came to that. */
  ghost predicate Because(b: Books, past: seq<Past>, route: Route, c: Books) {
    && (forall uri <- c.settled :: uri in b.settled || CameTo(past, uri, Done))
    && (forall uri <- c.unrouted :: uri in b.unrouted || (CameTo(past, uri, Failed) && route(uri).None?))
    && (forall uri <- c.queue :: uri in b.queue || (CameTo(past, uri, Failed) && route(uri).Some?))
  }

  lemma CameToMore(past: seq<Past>, p: Past, uri: string, outcome: Outcome)
    ensures CameTo(past + [p], uri, outcome) <==> CameTo(past, uri, outcome) || (p.uri == uri && p.outcome == outcome)
  {
    if q :| q in past && q.uri == uri && q.outcome == outcome { assert q in past + [p]; }
    assert p in past + [p];
  }

  lemma BecauseMore(b: Books, past: seq<Past>, p: Past, route: Route, c: Books)
    requires Because(b, past, route, c)
    ensures Because(b, past + [p], route, PastMet(c, p, route))
  {
    hide PastMet, CameTo, PastFares, Later;
    PastMeans(c, p, route);
    forall uri, o
      ensures CameTo(past + [p], uri, o) <==> CameTo(past, uri, o) || (p.uri == uri && p.outcome == o)
    {
      CameToMore(past, p, uri, o);
    }
  }

  lemma {:induction false} BackfillMeans(b: Books, past: seq<Past>, route: Route)
    ensures Later(b, Backfilled(b, past, route)) && Because(b, past, route, Backfilled(b, past, route))
    decreases |past|
  {
    hide Later, Because, PastMet, PastFares;
    if past == [] {
      SameLater(b);
      NothingPast(b, route);
    } else {
      var rest, p := past[..|past| - 1], past[|past| - 1];
      BackfillMeans(b, rest, route);
      var c := Backfilled(b, rest, route);
      PastMeans(c, p, route);
      BecauseMore(b, rest, p, route, c);
      assert rest + [p] == past;
      LaterTwice(b, c, PastMet(c, p, route));
    }
  }

  lemma NothingPast(b: Books, route: Route)
    ensures Because(b, [], route, b)
  {}

  lemma PastLater(b: Books, p: Past, route: Route, c: Books, d: Books)
    requires PastFares(b, p, route, c) && Later(c, d)
    ensures PastFares(b, p, route, d)
  {
    hide Queued;
    match route(p.uri) {
      case None =>
      case Some(peer) =>
        if p.outcome != Done && !Sticks(b, Status("", p.uri, false), p.outcome, route) {
          QueuedLater(b, Status("", p.uri, false), peer, p.now, c, d);
        }
    }
  }

  /** Each post of an outbox pass fares by its own attempt, in the books it found. */
  lemma {:induction false} BackfillFares(b: Books, past: seq<Past>, route: Route, i: nat)
    requires i < |past|
    ensures PastFares(Backfilled(b, past[..i], route), past[i], route, Backfilled(b, past, route))
    decreases |past|
  {
    hide Later, PastMet, PastFares;
    var last := |past| - 1;
    var c := Backfilled(b, past[..last], route);
    PastMeans(c, past[last], route);
    if i < last {
      BackfillFares(b, past[..last], route, i);
      assert past[..last][..i] == past[..i];
      PastLater(Backfilled(b, past[..i], route), past[i], route, c, PastMet(c, past[last], route));
    }
  }

  /** Whether the post's peer is held when discovery meets it. */
  predicate PeerHeld(b: Books, f: Found, route: Route) {
    route(f.status.uri).Some? && HeldBy(b.held, route(f.status.uri).value, f.now)
  }

  /** How a status that discovery went past fares, met when the books were `b`. */
  ghost predicate Fares(b: Books, f: Found, route: Route, c: Books) {
    if f.status.boost then true
    else if PeerHeld(b, f, route) then Queued(b, f.status, route(f.status.uri).value, f.now, c)
    else if f.outcome == Done then f.status.uri in c.settled
    else f.outcome == Failed && FailureFares(b, f.status, f.now, route, c)
  }

  /** Why discovery may stop at a status: no room for it, or the instance throttles. */
  predicate Blocks(b: Books, f: Found, route: Route) {
    && !f.status.boost
    && if PeerHeld(b, f, route) then f.status.uri !in b.queue && |b.queue| >= 2000
       else f.outcome != Done && Sticks(b, f.status, f.outcome, route)
  }

  lemma FaresLater(b: Books, f: Found, route: Route, c: Books, d: Books)
    requires Fares(b, f, route, c) && Later(c, d)
    ensures Fares(b, f, route, d)
  {
    hide Queued;
    match route(f.status.uri) {
      case None =>
      case Some(peer) => if Queued(b, f.status, peer, f.now, c) { QueuedLater(b, f.status, peer, f.now, c, d); }
    }
  }

  /** An attempt on `uri` of this status or of the outbox pass behind it came to `outcome`. */
  predicate Tried(f: Found, uri: string, outcome: Outcome) {
    (!f.status.boost && f.status.uri == uri && f.outcome == outcome) || CameTo(f.backfill, uri, outcome)
  }

  /** Why a uri is where it is in the books after one status. */
  ghost predicate BecauseOf(b: Books, f: Found, route: Route, c: Books) {
    && (forall uri <- c.settled :: uri in b.settled || Tried(f, uri, Done))
    && (forall uri <- c.unrouted :: uri in b.unrouted || (Tried(f, uri, Failed) && route(uri).None?))
    && (forall uri <- c.queue :: uri in b.queue || (route(uri).Some?
          && (Tried(f, uri, Failed) || (!f.status.boost && f.status.uri == uri && PeerHeld(b, f, route)))))
  }

  /** The books after a status itself, before the outbox pass behind it. */
  ghost predicate Alone(b: Books, f: Found, route: Route, c: Books) {
    && Fares(b, f, route, c) && Later(b, c) && BecauseOf(b, f.(backfill := []), route, c)
  }

  lemma WithPast(b: Books, f: Found, route: Route, c: Books)
    requires Alone(b, f, route, c)
    ensures var d := Backfilled(c, f.backfill, route); Fares(b, f, route, d) && Later(b, d) && BecauseOf(b, f, route, d)
  {
    hide Fares, Later, HeldBy, Backfilled;
    var d := Backfilled(c, f.backfill, route);
    BackfillMeans(c, f.backfill, route);
    FaresLater(b, f, route, c, d);
    LaterTwice(b, c, d);
  }

  lemma HeldAlone(b: Books, f: Found, route: Route)
    requires !f.status.boost && PeerHeld(b, f, route)
    ensures Room(b.queue, f.status.uri) <==> !Blocks(b, f, route)
    ensures var c := b.(queue := Deferring(b.queue, f.status, route(f.status.uri).value, f.now),
                        lastSeen := Advanced(b.lastSeen, f.status.id));
            Alone(b, f, route, c)
  {
    var peer := route(f.status.uri).value;
    DeferringMeans(b.queue, f.status, peer, f.now);
    DeferringDescends(b.queue, f.status, peer, f.now);
    hide Deferring, Delay, Failure, HeldBy, Advanced;
  }

  lemma DoneAlone(b: Books, f: Found, route: Route)
    requires !f.status.boost && !PeerHeld(b, f, route) && f.outcome == Done
    ensures Alone(b, f, route, b.(settled := b.settled + {f.status.uri}, lastSeen := Advanced(b.lastSeen, f.status.id)))
  {
    hide HeldBy, Advanced, IdLess;
  }

  lemma FailedAlone(b: Books, f: Found, route: Route)
    requires !f.status.boost && !PeerHeld(b, f, route) && f.outcome != Done
    ensures Failing(b, f.status, f.outcome, f.now, route).None? <==> Blocks(b, f, route)
    ensures Failing(b, f.status, f.outcome, f.now, route).Some? ==>
      var c := Failing(b, f.status, f.outcome, f.now, route).value;
      Alone(b, f, route, c.(lastSeen := Advanced(b.lastSeen, f.status.id)))
  {
    hide Failing, HeldBy, Failure, Advanced, Later, BecauseOf, FailureFares, Sticks;
    FailingMeans(b, f.status, f.outcome, f.now, route);
    if f.outcome == RateLimited { ThrottledSticks(b, f.status, route); }
    if Failing(b, f.status, f.outcome, f.now, route).Some? {
      var c := Failing(b, f.status, f.outcome, f.now, route).value;
      FailedBecause(b, f, route, c);
      SeenAlone(b, f, route, c, Advanced(b.lastSeen, f.status.id));
    }
  }

  lemma FailedBecause(b: Books, f: Found, route: Route, c: Books)
    requires !f.status.boost && f.outcome == Failed && c.settled == b.settled
    requires c.unrouted == b.unrouted + (if route(f.status.uri).None? then {f.status.uri} else {})
    requires c.queue.Keys == b.queue.Keys + if route(f.status.uri).None? then {} else {f.status.uri}
    ensures BecauseOf(b, f.(backfill := []), route, c)
  {
    hide PeerHeld;
  }

  lemma SeenAlone(b: Books, f: Found, route: Route, c: Books, lastSeen: string)
    requires Alone(b, f, route, c)
    ensures Alone(b, f, route, c.(lastSeen := lastSeen))
  {
    hide Failure, HeldBy;
    match route(f.status.uri) {
      case None =>
      case Some(_) =>
    }
  }

  /** One status: when it stops the walk, how it fares, and what else it changes. */
  lemma MetMeans(b: Books, f: Found, route: Route)
    ensures Met(b, f, route).None? <==> Blocks(b, f, route)
    ensures Met(b, f, route).Some? ==>
      var c := Met(b, f, route).value; Fares(b, f, route, c) && Later(b, c) && BecauseOf(b, f, route, c)
  {
    hide Failing, Deferring, Advanced, Backfilled, Alone, Fares, Later, BecauseOf, HeldBy, Room, Sticks;
    var st := f.status;
    if st.boost {
      BoostMeans(b, f, route);
    } else if PeerHeld(b, f, route) {
      HeldAlone(b, f, route);
      var c := b.(queue := Deferring(b.queue, st, route(st.uri).value, f.now), lastSeen := Advanced(b.lastSeen, st.id));
      NoPast(b, f, route, c);
    } else if f.outcome == Done {
      DoneAlone(b, f, route);
      WithPast(b, f, route, b.(settled := b.settled + {st.uri}, lastSeen := Advanced(b.lastSeen, st.id)));
    } else {
      FailedAlone(b, f, route);
      if Failing(b, st, f.outcome, f.now, route).Some? {
        SameSeen(b, st, f.outcome, f.now, route);
        WithPast(b, f, route, Failing(b, st, f.outcome, f.now, route).value.(lastSeen := Advanced(b.lastSeen, st.id)));
      }
    }
  }

  lemma SameSeen(b: Books, st: Status, outcome: Outcome, now: int, route: Route)
    requires Failing(b, st, outcome, now, route).Some?
    ensures Failing(b, st, outcome, now, route).value.lastSeen == b.lastSeen
  {}

  lemma NoPast(b: Books, f: Found, route: Route, c: Books)
    requires Alone(b, f, route, c)
    ensures Fares(b, f, route, c) && Later(b, c) && BecauseOf(b, f, route, c)
  {
    hide Fares, Later, HeldBy;
  }

  lemma BoostMeans(b: Books, f: Found, route: Route)
    requires f.status.boost
    ensures var c := b.(lastSeen := Advanced(b.lastSeen, f.status.id));
            Fares(b, f, route, c) && Later(b, c) && BecauseOf(b, f, route, c)
  {
    hide Advanced, PeerHeld;
  }

  // ----- one page -----

  /** The books when the walk comes to the status at `j`. */
  function At(b: Books, page: seq<Found>, route: Route, j: nat): Books
    requires j < |page|
  {
    Walked(b, page[j + 1..], route).0
  }

  lemma AtLast(b: Books, page: seq<Found>, route: Route)
    requires page != []
    ensures At(b, page, route, |page| - 1) == b
  {
    assert page[|page|..] == [];
  }

  lemma AtNext(b: Books, page: seq<Found>, route: Route, j: nat)
    requires j + 1 < |page| && Met(b, page[|page| - 1], route).Some?
    ensures At(b, page, route, j) == At(Met(b, page[|page| - 1], route).value, page[..|page| - 1], route, j)
  {
    var rest := page[j + 1..];
    assert rest[..|rest| - 1] == page[..|page| - 1][j + 1..];
    assert rest[|rest| - 1] == page[|page| - 1];
  }

  /** Each status the walk went past fares by its own turn, in the books it found. */
  lemma {:induction false} WalkFares(b: Books, page: seq<Found>, route: Route, j: nat)
    requires Walked(b, page, route).1 <= j < |page|
    ensures var c := Walked(b, page, route).0; Fares(At(b, page, route, j), page[j], route, c) && Later(b, c)
    decreases |page|
  {
    hide Met, Fares, Later, At;
    var last := |page| - 1;
    MetMeans(b, page[last], route);
    var b1, c := Met(b, page[last], route).value, Walked(b, page, route).0;
    WalkLater(b1, page[..last], route);
    if j == last {
      AtLast(b, page, route);
      FaresLater(b, page[last], route, b1, c);
      LaterTwice(b, b1, c);
    } else {
      WalkFares(b1, page[..last], route, j);
      AtNext(b, page, route, j);
      LaterTwice(b, b1, c);
    }
  }

  lemma {:induction false} WalkLater(b: Books, page: seq<Found>, route: Route)
    ensures Later(b, Walked(b, page, route).0) && Walked(b, page, route).1 <= |page|
    decreases |page|
  {
    hide Met, Later;
    SameLater(b);
    if page != [] && Met(b, page[|page| - 1], route).Some? {
      var b1 := Met(b, page[|page| - 1], route).value;
      MetMeans(b, page[|page| - 1], route);
      WalkLater(b1, page[..|page| - 1], route);
      LaterTwice(b, b1, Walked(b, page, route).0);
    }
  }

  /** The walk stops at the first status that must hold the cursor, and at no other. */
  lemma {:induction false} WalkStops(b: Books, page: seq<Found>, route: Route, j: nat)
    requires Walked(b, page, route).1 <= j + 1 <= |page|
    ensures Blocks(At(b, page, route, j), page[j], route) <==> j + 1 == Walked(b, page, route).1
    decreases |page|
  {
    hide Met, Blocks, At;
    var last := |page| - 1;
    MetMeans(b, page[last], route);
    AtLast(b, page, route);
    if Met(b, page[last], route).Some? {
      var b1 := Met(b, page[last], route).value;
      WalkLater(b1, page[..last], route);
      if j < last {
        AtNext(b, page, route, j);
        WalkStops(b1, page[..last], route, j);
      }
    }
  }

  /** The walk over all but the first `k` of a page made an attempt on `uri` that came to `outcome`. */
  predicate TriedOn(page: seq<Found>, k: nat, uri: string, outcome: Outcome) {
    exists j :: k <= j < |page| && Tried(page[j], uri, outcome)
  }

  /** It queued the post unattempted, its peer being held. */
  predicate HeldOn(b: Books, page: seq<Found>, route: Route, k: nat, uri: string) {
    exists j :: k <= j < |page| && !page[j].status.boost && page[j].status.uri == uri && PeerHeld(At(b, page, route, j), page[j], route)
  }

  lemma AlsoTried(page: seq<Found>, k: nat, uri: string, outcome: Outcome)
    requires page != [] && k < |page|
    ensures TriedOn(page[..|page| - 1], k, uri, outcome) ==> TriedOn(page, k, uri, outcome)
    ensures Tried(page[|page| - 1], uri, outcome) ==> TriedOn(page, k, uri, outcome)
  {
    hide Tried;
    var rest := page[..|page| - 1];
    if j :| k <= j < |rest| && Tried(rest[j], uri, outcome) { assert Tried(page[j], uri, outcome); }
  }

  lemma AlsoHeld(b: Books, page: seq<Found>, route: Route, k: nat, uri: string)
    requires page != [] && Met(b, page[|page| - 1], route).Some? && k < |page|
    ensures HeldOn(Met(b, page[|page| - 1], route).value, page[..|page| - 1], route, k, uri) ==> HeldOn(b, page, route, k, uri)
    ensures !page[|page| - 1].status.boost && page[|page| - 1].status.uri == uri && PeerHeld(b, page[|page| - 1], route) ==>
            HeldOn(b, page, route, k, uri)
  {
    hide PeerHeld, Met, At;
    var last := |page| - 1;
    var b1, rest := Met(b, page[last], route).value, page[..last];
    AtLast(b, page, route);
    if j :| k <= j < |rest| && !rest[j].status.boost && rest[j].status.uri == uri && PeerHeld(At(b1, rest, route, j), rest[j], route) {
      AtNext(b, page, route, j);
      assert page[j] == rest[j];
    }
  }

  /** Why a uri is where it is after the walk. */
  lemma {:induction false} WalkBecause(b: Books, page: seq<Found>, route: Route, uri: string)
    ensures
      var (c, k) := Walked(b, page, route);
      && (uri in c.settled ==> uri in b.settled || TriedOn(page, k, uri, Done))
      && (uri in c.unrouted ==> uri in b.unrouted || (TriedOn(page, k, uri, Failed) && route(uri).None?))
      && (uri in c.queue ==> uri in b.queue || (route(uri).Some? && (TriedOn(page, k, uri, Failed) || HeldOn(b, page, route, k, uri))))
    decreases |page|
  {
    hide Met, Tried, TriedOn, HeldOn, PeerHeld, Fares, Later;
    if page != [] && Met(b, page[|page| - 1], route).Some? {
      var last := |page| - 1;
      var b1 := Met(b, page[last], route).value;
      var (c, k) := Walked(b, page, route);
      MetMeans(b, page[last], route);
      WalkBecause(b1, page[..last], route, uri);
      WalkLater(b1, page[..last], route);
      AlsoTried(page, k, uri, Done);
      AlsoTried(page, k, uri, Failed);
      AlsoHeld(b, page, route, k, uri);
    }
  }

  /** What a poll makes of a page: it stops before the first status that must hold
      the cursor and at no other, and every status after that fares by its own turn. */
  lemma PollFares(b: Books, page: seq<Found>, route: Route)
    ensures
      var k, c := Walked(b, page, route).1, Polled(b, page, route);
      && k <= |page| && Later(b, c)
      && (0 < k ==> Blocks(At(b, page, route, k - 1), page[k - 1], route))
      && (forall j :: k <= j < |page| ==>
            !Blocks(At(b, page, route, j), page[j], route) && Fares(At(b, page, route, j), page[j], route, c))
  {
    hide Walked, Met, Fares, Blocks, At, Later;
    var (w, k) := Walked(b, page, route);
    var c := Polled(b, page, route);
    WalkLater(b, page, route);
    OnlyHanded(w, c.handed, c.missed);
    LaterTwice(b, w, c);
    if 0 < k { WalkStops(b, page, route, k - 1); }
    forall j | k <= j < |page|
      ensures !Blocks(At(b, page, route, j), page[j], route) && Fares(At(b, page, route, j), page[j], route, c)
    {
      WalkStops(b, page, route, j);
      WalkFares(b, page, route, j);
      FaresLater(At(b, page, route, j), page[j], route, w, c);
    }
  }

  lemma OnlyHanded(b: Books, handed: set<Status>, missed: set<Status>)
    ensures Later(b, b.(handed := handed, missed := missed))
  {}

  // ----- one retry pass -----

  /** How a due post fares by its turn. */
  predicate TurnFares(b: Books, d: Deferred, now: int, outcome: Outcome, c: Books) {
    var uri := d.status.uri;
    if HeldBy(b.held, d.peer, now) then uri in c.queue && c.queue[uri] == d
    else if outcome == Done then uri !in c.queue && uri in c.settled
    else
      && uri in c.queue
      && c.queue[uri] == Deferred(d.status, d.peer, d.attempts + 1, (now + Delay(d.attempts + 1)) / 1_000_000_000, d.since)
      && d.peer in c.held && now + Delay(d.attempts + 1) <= c.held[d.peer]
  }

  lemma {:induction false} HoldsGrow(b: Books, due: seq<Deferred>, now: int, ingest: Ingest, i: nat, n: nat, peer: string)
    requires i <= n <= |due|
    ensures peer in AfterTurns(b, due, now, ingest, i).held ==>
      peer in AfterTurns(b, due, now, ingest, n).held
      && AfterTurns(b, due, now, ingest, i).held[peer] <= AfterTurns(b, due, now, ingest, n).held[peer]
    decreases n
  {
    hide Delay, HeldBy, Deferring;
    if i < n {
      HoldsGrow(b, due, now, ingest, i, n - 1, peer);
      var c, d := AfterTurns(b, due, now, ingest, n - 1), due[n - 1];
      ExtendedMeans(c.held, d.peer, now + Delay(d.attempts + 1));
      hide Extended;
    }
  }

  /** After the pass every due post that had a turn fares by it. */
  lemma EachDueFares(b: Books, due: seq<Deferred>, now: int, ingest: Ingest, i: nat, n: nat)
    requires Distinct(due) && Waiting(due, 0, b.queue) && i < n <= |due| && n <= TurnsMade(b, due, now, ingest, 0)
    ensures TurnFares(AfterTurns(b, due, now, ingest, i), due[i], now, ingest(due[i].status.uri, i), AfterTurns(b, due, now, ingest, n))
  {
    hide Delay, HeldBy, Deferring, Distinct, Waiting, AfterTurns;
    var a, d, outcome := AfterTurns(b, due, now, ingest, i), due[i], ingest(due[i].status.uri, i);
    EachDueStands(b, due, now, ingest, i, n);
    assert !Throttles(a, d, now, outcome);
    assert AfterTurns(b, due, now, ingest, i + 1) == Turned(a, d, now, outcome) by { NextTurn(b, due, now, ingest, i); }
    ExtendedMeans(a.held, d.peer, now + Delay(d.attempts + 1));
    HoldsGrow(b, due, now, ingest, i + 1, n, d.peer);
  }

  lemma NextTurn(b: Books, due: seq<Deferred>, now: int, ingest: Ingest, i: nat)
    requires i < |due|
    ensures AfterTurns(b, due, now, ingest, i + 1)
         == Turned(AfterTurns(b, due, now, ingest, i), due[i], now, ingest(due[i].status.uri, i))
  {}

  /** The pass touches no other post. */
  lemma {:induction false} OthersWait(b: Books, due: seq<Deferred>, now: int, ingest: Ingest, n: nat, uri: string)
    requires n <= |due| && forall d <- due :: d.status.uri != uri
    ensures var c := AfterTurns(b, due, now, ingest, n);
      (uri in c.queue <==> uri in b.queue) && (uri in b.queue ==> c.queue[uri] == b.queue[uri])
    decreases n
  {
    hide Delay, HeldBy, Deferring, Extended;
    if n > 0 {
      OthersWait(b, due, now, ingest, n - 1, uri);
      var c, d := AfterTurns(b, due, now, ingest, n - 1), due[n - 1];
      assert d in due;
      DeferringMeans(c.queue, d.status, d.peer, now);
    }
  }

  /** Why a uri is settled after so many turns, and that none else leaves the books. */
  lemma {:induction false} TurnsBecause(b: Books, due: seq<Deferred>, now: int, ingest: Ingest, n: nat, uri: string)
    requires n <= |due|
    ensures var c := AfterTurns(b, due, now, ingest, n);
      && (uri in c.settled ==> uri in b.settled || exists k :: 0 <= k < n && due[k].status.uri == uri && ingest(uri, k) == Done
                                                       && !HeldBy(b.held, due[k].peer, now))
      && c.unrouted == b.unrouted && c.givenUp == b.givenUp
      && (Waiting(due, 0, b.queue) ==> forall other <- c.queue :: other in b.queue)
    decreases n
  {
    hide HeldBy, Extended, Deferring;
    if n > 0 {
      TurnsBecause(b, due, now, ingest, n - 1, uri);
      var c, d := AfterTurns(b, due, now, ingest, n - 1), due[n - 1];
      DeferringMeans(c.queue, d.status, d.peer, now);
      if HeldBy(b.held, d.peer, now) { HoldsLast(b, due, now, ingest, 0, n - 1, d.peer); }
    }
  }

  // ----- every run -----

  /** The event has an attempt on `uri` that came to nil: on the page it walked or an
      outbox pass behind it, or a turn of a due post whose peer was not held. */
  ghost predicate SettledBy(a: Books, e: Event, uri: string) {
    match e
    case Poll(page, route) => Fits(a.lastSeen, page) && TriedOn(page, Walked(a, page, route).1, uri, Done)
    case Retry(now, ingest) =>
      && uri in a.queue && a.queue[uri].nextAt <= Seconds(now) && !Expired(a.queue[uri], now)
      && !HeldBy(a.held, a.queue[uri].peer, now) && exists k: nat :: ingest(uri, k) == Done
  }

  /** It has one that failed on a post no peer owns. */
  ghost predicate UnroutedBy(a: Books, e: Event, uri: string) {
    e.Poll? && Fits(a.lastSeen, e.page) && e.route(uri).None? && TriedOn(e.page, Walked(a, e.page, e.route).1, uri, Failed)
  }

  /** It is a retry pass, a day after the post first failed. */
  ghost predicate GivenUpBy(a: Books, e: Event, uri: string) {
    e.Retry? && uri in a.queue && e.now - a.queue[uri].since * 1_000_000_000 > 86_400_000_000_000
  }

  /** It has one that failed on a post some peer owns, or met one whose peer was held. */
  ghost predicate QueuedBy(a: Books, e: Event, uri: string) {
    && e.Poll? && Fits(a.lastSeen, e.page) && e.route(uri).Some?
    && (TriedOn(e.page, Walked(a, e.page, e.route).1, uri, Failed)
        || HeldOn(a, e.page, e.route, Walked(a, e.page, e.route).1, uri))
  }

  lemma StepBecause(a: Books, e: Event, b: Books, uri: string)
    requires Valid(a) && Step(a, e, b)
    ensures uri in b.settled ==> uri in a.settled || SettledBy(a, e, uri)
    ensures uri in b.unrouted ==> uri in a.unrouted || UnroutedBy(a, e, uri)
    ensures uri in b.givenUp ==> uri in a.givenUp || GivenUpBy(a, e, uri)
    ensures uri in b.queue ==> uri in a.queue || QueuedBy(a, e, uri)
  {
    hide Walked, TriedOn, HeldOn, Valid, Fits, IsDueList, HeldBy;
    match e {
      case Poll(page, route) =>
        if Fits(a.lastSeen, page) {
          WalkBecause(a, page, route, uri);
          WalkGivesUp(a, page, route);
        }
      case Retry(now, ingest) =>
        var due :| IsDueList(a, due, now) && b == Retried(a, due, now, ingest);
        RetryBecause(a, due, now, ingest, uri);
    }
  }

  lemma WalkGivesUp(b: Books, page: seq<Found>, route: Route)
    requires Valid(b) && Fits(b.lastSeen, page)
    ensures Walked(b, page, route).0.givenUp == b.givenUp
  {
    hide Walked, Fits;
    WalkKeeps(b, page, route);
  }

  lemma RetryBecause(a: Books, due: seq<Deferred>, now: int, ingest: Ingest, uri: string)
    requires IsDueList(a, due, now)
    ensures var b, e := Retried(a, due, now, ingest), Retry(now, ingest);
      && (uri in b.settled ==> uri in a.settled || SettledBy(a, e, uri))
      && b.unrouted == a.unrouted
      && (uri in b.givenUp ==> uri in a.givenUp || GivenUpBy(a, e, uri))
      && (uri in b.queue ==> uri in a.queue)
  {
    hide OldestFirst, HeldBy, AfterTurns, Expired, Distinct, Canonical;
    var s := Swept(a, now);
    var n := TurnsMade(s, due, now, ingest, 0);
    TurnsBecause(s, due, now, ingest, n, uri);
    DeadBecause(a, now, uri);
    if uri in Retried(a, due, now, ingest).settled && uri !in a.settled {
      var k :| 0 <= k < n && due[k].status.uri == uri && ingest(uri, k) == Done && !HeldBy(s.held, due[k].peer, now);
      DueBecause(a, due, now, k);
    }
  }

  lemma DeadBecause(a: Books, now: int, uri: string)
    ensures uri in Swept(a, now).givenUp ==> uri in a.givenUp || (uri in a.queue && now - a.queue[uri].since * 1_000_000_000 > 86_400_000_000_000)
    ensures uri in Swept(a, now).queue ==> uri in a.queue
  {}

  lemma DueBecause(a: Books, due: seq<Deferred>, now: int, k: nat)
    requires IsDueList(a, due, now) && k < |due|
    ensures var uri := due[k].status.uri;
      uri in a.queue && a.queue[uri] == due[k] && due[k].nextAt <= Seconds(now) && !Expired(a.queue[uri], now)
  {
    hide OldestFirst, Expired, Distinct;
    assert due[k] in due;
  }

  /** Over any run: a post is settled only by an attempt on it that came to nil, routed
      nowhere only by a failed one when no peer owns it, given up only by a retry pass
      a day after its first failure, and queued only by a failed attempt or a held
      peer when some peer owns it. */
  lemma {:induction false} WhyThere(trace: seq<Books>, events: seq<Event>, n: nat, uri: string)
    requires Run(trace, events) && trace[0] == START && n < |trace|
    ensures uri in trace[n].settled ==> exists i :: 0 <= i < n && SettledBy(trace[i], events[i], uri)
    ensures uri in trace[n].unrouted ==> exists i :: 0 <= i < n && UnroutedBy(trace[i], events[i], uri)
    ensures uri in trace[n].givenUp ==> exists i :: 0 <= i < n && GivenUpBy(trace[i], events[i], uri)
    ensures uri in trace[n].queue ==> exists i :: 0 <= i < n && QueuedBy(trace[i], events[i], uri)
    decreases n
  {
    hide Step, SettledBy, UnroutedBy, GivenUpBy, QueuedBy, Valid;
    if n > 0 {
      WhyThere(trace, events, n - 1, uri);
      StartValid();
      RunKeeps(trace, events, 0, n - 1);
      StepBecause(trace[n - 1], events[n - 1], trace[n], uri);
    }
  }

  /** A due post after `n` turns: as its own left it, or as it was when it had none. */
  ghost predicate LeftAfter(s: Books, due: seq<Deferred>, now: int, ingest: Ingest, i: nat, n: nat, c: Books)
    requires i < |due|
  {
    var uri := due[i].status.uri;
    if i < n then TurnFares(AfterTurns(s, due, now, ingest, i), due[i], now, ingest(uri, i), c)
    else uri in c.queue && c.queue[uri] == due[i]
  }

  /** And a retry pass leaves each queued post given up after a day, untouched before
      its time, and otherwise as its turn says, up to the turn that throttles. */
  lemma RetryFares(b: Books, due: seq<Deferred>, now: int, ingest: Ingest, uri: string)
    requires Valid(b) && IsDueList(b, due, now) && uri in b.queue
    ensures
      var s, c, d := Swept(b, now), Retried(b, due, now, ingest), b.queue[uri];
      var n := TurnsMade(s, due, now, ingest, 0);
      if now - d.since * 1_000_000_000 > 86_400_000_000_000 then uri in c.givenUp && uri !in c.queue
      else if d.nextAt > Seconds(now) then uri in c.queue && c.queue[uri] == d
      else exists i :: 0 <= i < |due| && due[i] == d && LeftAfter(s, due, now, ingest, i, n, c)
  {
    hide IsDueList, AfterTurns, HeldBy, Canonical, LeftAfter, Valid, Live, Dead;
    var d := b.queue[uri];
    if now - d.since * 1_000_000_000 > 86_400_000_000_000 || d.nextAt > Seconds(now) {
      UntouchedFares(b, due, now, ingest, uri);
    } else {
      DueFares(b, due, now, ingest, uri);
    }
  }

  /** A post given up, or not yet due. */
  lemma UntouchedFares(b: Books, due: seq<Deferred>, now: int, ingest: Ingest, uri: string)
    requires Valid(b) && IsDueList(b, due, now) && uri in b.queue
    requires now - b.queue[uri].since * 1_000_000_000 > 86_400_000_000_000 || b.queue[uri].nextAt > Seconds(now)
    ensures var c := Retried(b, due, now, ingest);
      if now - b.queue[uri].since * 1_000_000_000 > 86_400_000_000_000 then uri in c.givenUp && uri !in c.queue
      else uri in c.queue && c.queue[uri] == b.queue[uri]
  {
    hide OldestFirst, AfterTurns, HeldBy, Canonical, Distinct;
    var s := Swept(b, now);
    var n := TurnsMade(s, due, now, ingest, 0);
    TurnsGiveUp(s, due, now, ingest, n);
    forall d <- due
      ensures d.status.uri != uri
    {
      assert d.status.uri in s.queue;
    }
    OthersWait(s, due, now, ingest, n, uri);
  }

  lemma DueFares(b: Books, due: seq<Deferred>, now: int, ingest: Ingest, uri: string)
    requires Valid(b) && IsDueList(b, due, now) && uri in b.queue
    requires now - b.queue[uri].since * 1_000_000_000 <= 86_400_000_000_000 && b.queue[uri].nextAt <= Seconds(now)
    ensures var s := Swept(b, now);
      exists i :: 0 <= i < |due| && due[i] == b.queue[uri]
                  && LeftAfter(s, due, now, ingest, i, TurnsMade(s, due, now, ingest, 0), Retried(b, due, now, ingest))
  {
    hide OldestFirst, AfterTurns, HeldBy, Canonical, TurnFares;
    var s := Swept(b, now);
    var n := TurnsMade(s, due, now, ingest, 0);
    assert b.queue[uri] in due;
    var i :| 0 <= i < |due| && due[i] == b.queue[uri];
    if i < n { EachDueFares(s, due, now, ingest, i, n); } else { WaitingAt(s, due, now, ingest, n, i); }
    assert LeftAfter(s, due, now, ingest, i, n, Retried(b, due, now, ingest));
  }
}
