/** Discovery and retry as values: what one status, one page and one retry pass
    do to the bridge's books, and what every run of them keeps.

    Bridge.dfy does the same work in place. */
module Discovery {
  import opened Wrappers
  import opened Sets
  import opened StatusId

  datatype Status = Status(id: string, uri: string, boost: bool)

  /** What an ingest came to: nil, the instance throttling the bridge itself, or
      any other failure. */
  datatype Outcome = Done | RateLimited | Failed

  /** Times are nanoseconds; `nextAt` and `since` are whole seconds. */
  datatype Deferred = Deferred(status: Status, peer: string, attempts: nat, nextAt: int, since: int)

  /** A backfilled post and what its ingest came to. */
  datatype Past = Past(uri: string, now: int, outcome: Outcome)

  /** A status as discovery meets it: the time, what its ingest would come to if
      tried, and the outbox pass that follows the first sight of its author. */
  datatype Found = Found(status: Status, now: int, outcome: Outcome, backfill: seq<Past>)

  type Route = string -> Option<string>

  /** What the n-th attempt of a retry pass comes to, if it is on that post. */
  type Ingest = (string, nat) -> Outcome

  /** A poll that is handed a page, or a retry pass. */
  datatype Event = Poll(page: seq<Found>, route: Route) | Retry(now: int, ingest: Ingest)

  /** The cursor, the retry queue and the peer holds; why posts left discovery; the
      statuses it was ever handed; and those a later page left out and passed. */
  datatype Books = Books(
    lastSeen: string, queue: map<string, Deferred>, held: map<string, int>,
    settled: set<string>, unrouted: set<string>, givenUp: set<string>,
    handed: set<Status>, missed: set<Status>)

  const START := Books("", map[], map[], {}, {}, {}, {}, {})

  const MAX_DEFERRED: nat := 2000
  const MINUTE: int := 60_000_000_000
  const DAY: int := 86_400_000_000_000

  function Seconds(t: int): int { t / 1_000_000_000 }

  function Power2(n: nat): (p: nat)
    ensures 0 < p
  {
    if n == 0 then 1 else 2 * Power2(n - 1)
  }

  function Delay(attempts: nat): (d: int)
    ensures MINUTE <= d <= 30 * MINUTE
  {
    var minutes := if attempts == 0 then 1 else Power2(attempts - 1);
    if minutes < 30 then 60_000_000_000 * minutes else 30 * MINUTE
  }

  /** A queued post after one more failed attempt. */
  function Again(d: Deferred, now: int): Deferred {
    d.(attempts := d.attempts + 1, nextAt := Seconds(now + Delay(d.attempts + 1)))
  }

  predicate Expired(d: Deferred, now: int) { now - d.since * 1_000_000_000 > DAY }

  predicate HeldBy(held: map<string, int>, peer: string, now: int) { peer in held && now < held[peer] }

  /** Holds only ever grow longer. */
  function Extended(held: map<string, int>, peer: string, until: int): map<string, int> {
    if peer in held && until <= held[peer] then held else held[peer := until]
  }

  predicate Room(queue: map<string, Deferred>, uri: string) { uri in queue || |queue| < MAX_DEFERRED }

  /** The queue with one more failure of a post. */
  function Deferring(queue: map<string, Deferred>, st: Status, peer: string, now: int): map<string, Deferred> {
    queue[st.uri := Again(if st.uri in queue then queue[st.uri] else Deferred(st, peer, 0, 0, Seconds(now)), now)]
  }

  function Advanced(lastSeen: string, id: string): string {
    if id != "" && (lastSeen == "" || IdLess(lastSeen, id)) then id else lastSeen
  }

  predicate Passed(lastSeen: string, id: string) { lastSeen != "" && !IdLess(lastSeen, id) }

  // ----- discovery -----

  /** A failed post is queued, or routes nowhere; nothing when it must hold the
      cursor: the instance throttles the bridge, or the queue has no room. */
  function Failing(b: Books, st: Status, outcome: Outcome, now: int, route: Route): Option<Books> {
    if outcome == RateLimited then None
    else
      match route(st.uri)
      case None => Some(b.(unrouted := b.unrouted + {st.uri}))
      case Some(peer) =>
        if Room(b.queue, st.uri)
        then Some(b.(queue := Deferring(b.queue, st, peer, now), held := Extended(b.held, peer, now + Delay(1))))
        else None
  }

  function PastMet(b: Books, p: Past, route: Route): Books {
    if p.outcome == Done then b.(settled := b.settled + {p.uri})
    else
      match Failing(b, Status("", p.uri, false), p.outcome, p.now, route)
      case None => b
      case Some(b1) => b1
  }

  function Backfilled(b: Books, past: seq<Past>, route: Route): Books {
    if past == [] then b else PastMet(Backfilled(b, past[..|past| - 1], route), past[|past| - 1], route)
  }

  function HoldingPeer(b: Books, st: Status, now: int, route: Route): Option<string> {
    match route(st.uri)
    case None => None
    case Some(peer) => if HeldBy(b.held, peer, now) then Some(peer) else None
  }

  /** One status; nothing when it holds the cursor. */
  function Met(b: Books, f: Found, route: Route): Option<Books> {
    var st := f.status;
    if st.boost then Some(b.(lastSeen := Advanced(b.lastSeen, st.id)))
    else
      match HoldingPeer(b, st, f.now, route)
      case Some(peer) =>
        if Room(b.queue, st.uri)
        then Some(b.(queue := Deferring(b.queue, st, peer, f.now), lastSeen := Advanced(b.lastSeen, st.id)))
        else None
      case None =>
        var tried := if f.outcome == Done then Some(b.(settled := b.settled + {st.uri}))
                     else Failing(b, st, f.outcome, f.now, route);
        match tried
        case None => None
        case Some(b1) => Some(Backfilled(b1.(lastSeen := Advanced(b1.lastSeen, st.id)), f.backfill, route))
  }

  /** The walk, oldest first, and how many statuses it left at the front. */
  function Walked(b: Books, page: seq<Found>, route: Route): (Books, nat)
    decreases |page|
  {
    if page == [] then (b, 0)
    else
      match Met(b, page[|page| - 1], route)
      case None => (b, |page|)
      case Some(b1) => Walked(b1, page[..|page| - 1], route)
  }

  function Statuses(page: seq<Found>): set<Status> { set i | 0 <= i < |page| :: page[i].status }

  /** A page comes newest first, strictly ordered, all after the cursor. */
  predicate Fits(lastSeen: string, page: seq<Found>) {
    && (forall i :: 0 <= i < |page| ==> page[i].status.id != "" && Canonical(page[i].status.id))
    && (forall i :: 0 <= i < |page| ==> lastSeen == "" || IdLess(lastSeen, page[i].status.id))
    && (forall i, j :: 0 <= i < j < |page| ==> IdLess(page[j].status.id, page[i].status.id))
  }

  /** Handed before, not on this page, and passed only now. */
  predicate LeftBehind(a: Books, page: seq<Found>, lastSeen: string, st: Status) {
    st in a.handed && st !in Statuses(page) && !Passed(a.lastSeen, st.id) && Passed(lastSeen, st.id)
  }

  function Polled(b: Books, page: seq<Found>, route: Route): Books {
    var b1 := Walked(b, page, route).0;
    b1.(handed := b.handed + Statuses(page),
        missed := b.missed + set st | st in b.handed && LeftBehind(b, page, b1.lastSeen, st))
  }

  // ----- retrying -----

  /** The queue without what is too old, and what is too old, outside `todo`. */
  function Live(queue: map<string, Deferred>, todo: set<string>, now: int): map<string, Deferred> {
    map uri | uri in queue && (uri in todo || !Expired(queue[uri], now)) :: queue[uri]
  }

  function Dead(queue: map<string, Deferred>, todo: set<string>, now: int): set<string> {
    set uri | uri in queue && uri !in todo && Expired(queue[uri], now)
  }

  /** What has waited a day is given up. */
  function Swept(b: Books, now: int): Books {
    b.(queue := Live(b.queue, {}, now), givenUp := b.givenUp + Dead(b.queue, {}, now))
  }

  predicate OldestFirst(due: seq<Deferred>) {
    && (forall d <- due :: Canonical(d.status.id))
    && forall i, j :: 0 <= i < j < |due| ==> !IdLess(due[j].status.id, due[i].status.id)
  }

  predicate Distinct(due: seq<Deferred>) {
    forall i, j :: 0 <= i < j < |due| ==> due[i].status.uri != due[j].status.uri
  }

  /** `due` holds each due post of the queue outside `todo`, once. */
  ghost predicate Gathered(due: seq<Deferred>, queue: map<string, Deferred>, todo: set<string>, now: int) {
    && Distinct(due)
    && (forall uri :: uri in queue && uri !in todo && queue[uri].nextAt <= Seconds(now) ==> queue[uri] in due)
    && forall d <- due :: d.nextAt <= Seconds(now) && d.status.uri in queue.Keys - todo && queue[d.status.uri] == d
  }

  /** The instance throttles the bridge: the pass stops here. */
  predicate Throttles(b: Books, d: Deferred, now: int, outcome: Outcome) {
    !HeldBy(b.held, d.peer, now) && outcome == RateLimited
  }

  /** One turn of the pass: a held peer is not tried, and a failure holds it. */
  function Turned(b: Books, d: Deferred, now: int, outcome: Outcome): Books {
    if HeldBy(b.held, d.peer, now) || outcome == RateLimited then b
    else if outcome == Done then b.(queue := b.queue - {d.status.uri}, settled := b.settled + {d.status.uri})
    else b.(queue := Deferring(b.queue, d.status, d.peer, now), held := Extended(b.held, d.peer, now + Delay(d.attempts + 1)))
  }

  function AfterTurns(b: Books, due: seq<Deferred>, now: int, ingest: Ingest, n: nat): Books
    requires n <= |due|
  {
    if n == 0 then b
    else Turned(AfterTurns(b, due, now, ingest, n - 1), due[n - 1], now, ingest(due[n - 1].status.uri, n - 1))
  }

  /** The number of turns made, from the i-th on. */
  function TurnsMade(b: Books, due: seq<Deferred>, now: int, ingest: Ingest, i: nat): (n: nat)
    requires i <= |due|
    ensures i <= n <= |due|
    ensures forall j :: i <= j < n ==> !Throttles(AfterTurns(b, due, now, ingest, j), due[j], now, ingest(due[j].status.uri, j))
    ensures n < |due| ==> Throttles(AfterTurns(b, due, now, ingest, n), due[n], now, ingest(due[n].status.uri, n))
    decreases |due| - i
  {
    if i == |due| || Throttles(AfterTurns(b, due, now, ingest, i), due[i], now, ingest(due[i].status.uri, i)) then i
    else TurnsMade(b, due, now, ingest, i + 1)
  }

  /** The pass over `due`, the due posts of what is left after the sweep. */
  function Retried(b: Books, due: seq<Deferred>, now: int, ingest: Ingest): Books {
    var b1 := Swept(b, now);
    AfterTurns(b1, due, now, ingest, TurnsMade(b1, due, now, ingest, 0))
  }

  ghost predicate IsDueList(b: Books, due: seq<Deferred>, now: int) {
    OldestFirst(due) && Gathered(due, Swept(b, now).queue, {}, now)
  }

  // ----- runs -----

  /** A page that does not fit is no answer to the poll, and is no step. */
  ghost predicate Step(a: Books, e: Event, b: Books) {
    match e
    case Poll(page, route) => b == if Fits(a.lastSeen, page) then Polled(a, page, route) else a
    case Retry(now, ingest) => exists due :: IsDueList(a, due, now) && b == Retried(a, due, now, ingest)
  }

  ghost predicate Run(trace: seq<Books>, events: seq<Event>) {
    |trace| == |events| + 1 && forall i :: 0 <= i < |events| ==> Step(trace[i], events[i], trace[i + 1])
  }

  // ----- what every step keeps -----

  /** The posts handled for good, or waiting in the queue. */
  function Covered(b: Books): set<string> { b.settled + b.unrouted + b.givenUp + b.queue.Keys }

  predicate Accounted(b: Books, st: Status) { st.boost || st.uri in Covered(b) }

  ghost predicate QueueOk(queue: map<string, Deferred>) {
    |queue| <= MAX_DEFERRED && forall uri <- queue :: queue[uri].status.uri == uri && Canonical(queue[uri].status.id)
  }

  /** The queue is within its cap, and every status the cursor passed is a boost,
      settled, routed nowhere, given up or queued; or a later page missed it. */
  ghost predicate Valid(b: Books) {
    && QueueOk(b.queue)
    && Canonical(b.lastSeen)
    && forall st <- b.handed :: st.id != "" && Canonical(st.id) && (Passed(b.lastSeen, st.id) ==> Accounted(b, st) || st in b.missed)
  }

  /** What a step of discovery leaves alone or lets grow. */
  ghost predicate Grows(a: Books, b: Books) {
    && QueueOk(b.queue) && a.queue.Keys <= b.queue.Keys
    && a.settled <= b.settled && a.unrouted <= b.unrouted && b.givenUp == a.givenUp
    && b.handed == a.handed && b.missed == a.missed
  }

  lemma GrowsCovers(a: Books, b: Books)
    requires Grows(a, b)
    ensures Covered(a) <= Covered(b)
  {
    hide QueueOk;
  }

  lemma DeferringKeeps(queue: map<string, Deferred>, st: Status, peer: string, now: int)
    requires QueueOk(queue) && Room(queue, st.uri) && Canonical(st.id)
    ensures QueueOk(Deferring(queue, st, peer, now)) && Deferring(queue, st, peer, now).Keys == queue.Keys + {st.uri}
  {
    assert Deferring(queue, st, peer, now).Keys == queue.Keys + {st.uri};
    if st.uri in queue {
      assert queue.Keys + {st.uri} == queue.Keys;
    } else {
      assert |queue.Keys + {st.uri}| == |queue.Keys| + 1;
    }
  }

  lemma FailingKeeps(b: Books, st: Status, outcome: Outcome, now: int, route: Route)
    requires QueueOk(b.queue) && Canonical(st.id) && Failing(b, st, outcome, now, route).Some?
    ensures var b1 := Failing(b, st, outcome, now, route).value;
            Grows(b, b1) && b1.lastSeen == b.lastSeen && (st.uri in b1.unrouted || st.uri in b1.queue)
  {
    hide QueueOk, Deferring, Extended, Room, Canonical, Delay;
    match route(st.uri) {
      case None =>
      case Some(peer) => DeferringKeeps(b.queue, st, peer, now);
    }
  }

  lemma {:induction false} BackfillKeeps(b: Books, past: seq<Past>, route: Route)
    requires QueueOk(b.queue)
    ensures Grows(b, Backfilled(b, past, route)) && Backfilled(b, past, route).lastSeen == b.lastSeen
    decreases |past|
  {
    hide QueueOk, Failing;
    if past != [] {
      var p := past[|past| - 1];
      BackfillKeeps(b, past[..|past| - 1], route);
      var b1 := Backfilled(b, past[..|past| - 1], route);
      var st := Status("", p.uri, false);
      if p.outcome != Done && Failing(b1, st, p.outcome, p.now, route).Some? { FailingKeeps(b1, st, p.outcome, p.now, route); }
    }
  }

  lemma MetKeeps(b: Books, f: Found, route: Route)
    requires QueueOk(b.queue) && Canonical(f.status.id) && Met(b, f, route).Some?
    ensures var b1 := Met(b, f, route).value;
            Grows(b, b1) && Accounted(b1, f.status) && b1.lastSeen == Advanced(b.lastSeen, f.status.id)
  {
    hide QueueOk, Failing, Deferring, Advanced, Backfilled, HoldingPeer;
    var st := f.status;
    if !st.boost {
      match HoldingPeer(b, st, f.now, route) {
        case Some(peer) => DeferringKeeps(b.queue, st, peer, f.now);
        case None =>
          var b1 := if f.outcome == Done then b.(settled := b.settled + {st.uri}) else Failing(b, st, f.outcome, f.now, route).value;
          if f.outcome != Done { FailingKeeps(b, st, f.outcome, f.now, route); }
          BackfillKeeps(b1.(lastSeen := Advanced(b1.lastSeen, st.id)), f.backfill, route);
      }
    }
  }

  /** The walk accounts for everything it went past, and stands on the last of it. */
  lemma {:induction false} WalkKeeps(b: Books, page: seq<Found>, route: Route)
    requires QueueOk(b.queue) && Fits(b.lastSeen, page)
    ensures
      var (b1, k) := Walked(b, page, route);
      && Grows(b, b1) && k <= |page| && b1.lastSeen == (if k == |page| then b.lastSeen else page[k].status.id)
      && (forall j :: 0 <= j < k ==> !Passed(b1.lastSeen, page[j].status.id))
      && (forall j :: k <= j < |page| ==> Accounted(b1, page[j].status))
    decreases |page|
  {
    hide QueueOk, IdLess, Canonical, Met, Covered;
    if page != [] && Met(b, page[|page| - 1], route).Some? {
      var last := |page| - 1;
      MetKeeps(b, page[last], route);
      var next := Met(b, page[last], route).value;
      WalkKeeps(next, page[..last], route);
      var (b1, k) := Walked(next, page[..last], route);
      assert next.lastSeen == page[last].status.id;
      assert Walked(b, page, route) == (b1, k) && k <= last;
      GrowsCovers(next, b1);
    }
  }

  /** A poll keeps the books in order, and only moves the cursor forward. */
  lemma PollKeeps(b: Books, page: seq<Found>, route: Route)
    requires Valid(b) && Fits(b.lastSeen, page)
    ensures Valid(Polled(b, page, route))
    ensures Covered(b) <= Covered(Polled(b, page, route))
    ensures var lastSeen := Polled(b, page, route).lastSeen;
            lastSeen == b.lastSeen || (lastSeen != "" && (b.lastSeen == "" || IdLess(b.lastSeen, lastSeen)))
  {
    hide QueueOk, IdLess, Canonical, Walked;
    WalkKeeps(b, page, route);
    var c := Polled(b, page, route);
    GrowsCovers(b, Walked(b, page, route).0);
    assert Covered(b) <= Covered(c);
    forall st <- c.handed
      ensures st.id != "" && Canonical(st.id) && (Passed(c.lastSeen, st.id) ==> Accounted(c, st) || st in c.missed)
    {
      if st !in Statuses(page) && Passed(b.lastSeen, st.id) { assert st in b.handed; }
    }
  }

  // ----- the retry pass -----

  lemma StaysValid(b: Books, c: Books)
    requires Valid(b) && QueueOk(c.queue) && Covered(c) == Covered(b)
    requires c.lastSeen == b.lastSeen && c.handed == b.handed && c.missed == b.missed
    ensures Valid(c)
  {
    hide QueueOk, Covered, Canonical, IdLess;
  }

  lemma LiveOk(queue: map<string, Deferred>, now: int)
    requires QueueOk(queue)
    ensures QueueOk(Live(queue, {}, now))
    ensures queue.Keys == Live(queue, {}, now).Keys + Dead(queue, {}, now)
  {
    hide Expired, Canonical;
    Fewer(Live(queue, {}, now).Keys, queue.Keys);
  }

  lemma SweepKeeps(b: Books, now: int)
    requires Valid(b)
    ensures Valid(Swept(b, now)) && Covered(Swept(b, now)) == Covered(b)
  {
    hide QueueOk, Live, Dead;
    LiveOk(b.queue, now);
    assert Covered(Swept(b, now)) == Covered(b);
    StaysValid(b, Swept(b, now));
  }

  /** The due posts from number `i` on still wait as they did. */
  ghost predicate Waiting(due: seq<Deferred>, i: nat, queue: map<string, Deferred>) {
    forall j :: i <= j < |due| ==> due[j].status.uri in queue && queue[due[j].status.uri] == due[j]
  }

  /** One turn: a post only leaves the queue when it is settled. */
  lemma TurnKeeps(b: Books, d: Deferred, now: int, outcome: Outcome)
    requires Valid(b) && d.status.uri in b.queue && b.queue[d.status.uri] == d
    ensures Valid(Turned(b, d, now, outcome)) && Covered(Turned(b, d, now, outcome)) == Covered(b)
    ensures Turned(b, d, now, outcome).queue.Keys <= b.queue.Keys
    ensures Turned(b, d, now, outcome).lastSeen == b.lastSeen
  {
    hide IdLess, Canonical, HeldBy, Extended;
    var c := Turned(b, d, now, outcome);
    if c != b {
      if outcome == Done {
        Fewer(c.queue.Keys, b.queue.Keys);
        assert b.queue.Keys == c.queue.Keys + {d.status.uri};
      } else {
        DeferringKeeps(b.queue, d.status, d.peer, now);
        assert c.queue.Keys == b.queue.Keys;
      }
      assert Covered(c) == Covered(b);
      StaysValid(b, c);
    }
  }

  lemma {:induction false} TurnsKeep(b: Books, due: seq<Deferred>, now: int, ingest: Ingest, n: nat)
    requires Valid(b) && Distinct(due) && Waiting(due, 0, b.queue) && n <= |due|
    ensures var c := AfterTurns(b, due, now, ingest, n);
      && Valid(c) && Covered(c) == Covered(b) && c.lastSeen == b.lastSeen && Waiting(due, n, c.queue)
      && c.queue.Keys <= b.queue.Keys
  {
    hide Valid, Covered, HeldBy, Extended;
    if n > 0 {
      TurnsKeep(b, due, now, ingest, n - 1);
      TurnKeeps(AfterTurns(b, due, now, ingest, n - 1), due[n - 1], now, ingest(due[n - 1].status.uri, n - 1));
    }
  }

  lemma RetryKeeps(b: Books, due: seq<Deferred>, now: int, ingest: Ingest)
    requires Valid(b) && IsDueList(b, due, now)
    ensures Valid(Retried(b, due, now, ingest)) && Covered(Retried(b, due, now, ingest)) == Covered(b)
    ensures Retried(b, due, now, ingest).lastSeen == b.lastSeen
  {
    hide Valid, Covered, Live, OldestFirst;
    SweepKeeps(b, now);
    TurnsKeep(Swept(b, now), due, now, ingest, TurnsMade(Swept(b, now), due, now, ingest, 0));
  }

  // ----- one failing attempt per peer -----

  /** The pass tried the post in turn `i`, and failed. */
  predicate FailsAt(b: Books, due: seq<Deferred>, now: int, ingest: Ingest, i: nat)
    requires i < |due|
  {
    !HeldBy(AfterTurns(b, due, now, ingest, i).held, due[i].peer, now) && ingest(due[i].status.uri, i) != Done
  }

  /** Holds last through the pass. */
  lemma {:induction false} HoldsLast(b: Books, due: seq<Deferred>, now: int, ingest: Ingest, i: nat, n: nat, peer: string)
    requires i <= n <= |due| && HeldBy(AfterTurns(b, due, now, ingest, i).held, peer, now)
    ensures HeldBy(AfterTurns(b, due, now, ingest, n).held, peer, now)
    decreases n
  {
    if i < n { HoldsLast(b, due, now, ingest, i, n - 1, peer); }
  }

  /** A pass makes at most one failing attempt for each peer, and none for a peer
      that was held when it began. */
  lemma OneFailurePerPeer(b: Books, due: seq<Deferred>, now: int, ingest: Ingest, i: nat, j: nat)
    requires i < |due| && j < |due| && j <= TurnsMade(b, due, now, ingest, 0)
    requires FailsAt(b, due, now, ingest, j)
    ensures !HeldBy(b.held, due[j].peer, now)
    ensures i < j && FailsAt(b, due, now, ingest, i) ==> due[i].peer != due[j].peer
  {
    if HeldBy(b.held, due[j].peer, now) { HoldsLast(b, due, now, ingest, 0, j, due[j].peer); }
    if i < j && FailsAt(b, due, now, ingest, i) && due[i].peer == due[j].peer {
      assert !Throttles(AfterTurns(b, due, now, ingest, i), due[i], now, ingest(due[i].status.uri, i));
      HoldsLast(b, due, now, ingest, i + 1, j, due[i].peer);
    }
  }

  /** How a due post stands that had a turn when the books were `b`: counted once
      more with its peer held, or waiting as it was behind a held peer, or settled. */
  predicate Stands(b: Books, d: Deferred, now: int, outcome: Outcome, c: Books) {
    var uri := d.status.uri;
    if HeldBy(b.held, d.peer, now) then uri in c.queue && c.queue[uri] == d && HeldBy(c.held, d.peer, now)
    else if outcome == Done then uri !in c.queue && uri in c.settled
    else uri in c.queue && c.queue[uri] == Again(d, now) && HeldBy(c.held, d.peer, now)
  }

  lemma StandsNow(b: Books, d: Deferred, now: int, outcome: Outcome)
    requires d.status.uri in b.queue && b.queue[d.status.uri] == d && !Throttles(b, d, now, outcome)
    ensures Stands(b, d, now, outcome, Turned(b, d, now, outcome))
  {
    HoldHolds(b.held, d.peer, now + Delay(d.attempts + 1), now);
    hide HeldBy, Again, Extended;
  }

  lemma StandsLater(b: Books, d: Deferred, now: int, outcome: Outcome, c: Books, e: Deferred, other: Outcome)
    requires Stands(b, d, now, outcome, c) && d.status.uri != e.status.uri
    ensures Stands(b, d, now, outcome, Turned(c, e, now, other))
  {
    assert HeldBy(c.held, d.peer, now) ==> HeldBy(Extended(c.held, e.peer, now + Delay(e.attempts + 1)), d.peer, now);
    hide HeldBy, Again, Extended;
  }

  /** After the pass every post that had a turn stands as its own turn left it. */
  lemma {:induction false} EachDueStands(b: Books, due: seq<Deferred>, now: int, ingest: Ingest, i: nat, n: nat)
    requires Distinct(due) && Waiting(due, 0, b.queue) && i < n <= |due| && n <= TurnsMade(b, due, now, ingest, 0)
    ensures Stands(AfterTurns(b, due, now, ingest, i), due[i], now, ingest(due[i].status.uri, i), AfterTurns(b, due, now, ingest, n))
    decreases n
  {
    hide Stands, Turned, Throttles;
    var c, outcome := AfterTurns(b, due, now, ingest, n - 1), ingest(due[n - 1].status.uri, n - 1);
    if i == n - 1 {
      WaitingAt(b, due, now, ingest, i, i);
      StandsNow(c, due[i], now, outcome);
    } else {
      EachDueStands(b, due, now, ingest, i, n - 1);
      StandsLater(AfterTurns(b, due, now, ingest, i), due[i], now, ingest(due[i].status.uri, i), c, due[n - 1], outcome);
    }
  }

  predicate Counted(c: Books, d: Deferred, now: int) { d.status.uri in c.queue && c.queue[d.status.uri] == Again(d, now) }

  /** Of two due posts of one peer, a pass never counts a failed attempt of both. */
  lemma CountedOncePerPeer(b: Books, due: seq<Deferred>, now: int, ingest: Ingest, i: nat, j: nat)
    requires Distinct(due) && Waiting(due, 0, b.queue) && i < j < |due| && due[i].peer == due[j].peer
    ensures var c := AfterTurns(b, due, now, ingest, TurnsMade(b, due, now, ingest, 0));
            !(Counted(c, due[i], now) && Counted(c, due[j], now))
  {
    hide HeldBy, Delay, Turned, Distinct;
    var n := TurnsMade(b, due, now, ingest, 0);
    if j < n {
      EachDueStands(b, due, now, ingest, i, n);
      EachDueStands(b, due, now, ingest, j, n);
      if FailsAt(b, due, now, ingest, j) { OneFailurePerPeer(b, due, now, ingest, i, j); }
    } else {
      WaitingAt(b, due, now, ingest, n, j);
    }
  }

  lemma HoldHolds(held: map<string, int>, peer: string, until: int, now: int)
    ensures now < until ==> HeldBy(Extended(held, peer, until), peer, now)
  {
  }

  /** A post that had no turn yet waits as it did. */
  lemma {:induction false} WaitingAt(b: Books, due: seq<Deferred>, now: int, ingest: Ingest, n: nat, i: nat)
    requires Distinct(due) && Waiting(due, 0, b.queue) && n <= i < |due|
    ensures due[i].status.uri in AfterTurns(b, due, now, ingest, n).queue
    ensures AfterTurns(b, due, now, ingest, n).queue[due[i].status.uri] == due[i]
  {
    hide HeldBy, Again, Extended;
    if n > 0 { WaitingAt(b, due, now, ingest, n - 1, i); }
  }

  // ----- what every run keeps -----

  lemma StepKeeps(a: Books, e: Event, b: Books)
    requires Valid(a) && Step(a, e, b)
    ensures Valid(b) && Covered(a) <= Covered(b)
    ensures b.lastSeen == a.lastSeen || (b.lastSeen != "" && (a.lastSeen == "" || IdLess(a.lastSeen, b.lastSeen)))
  {
    hide Valid, Covered, Polled, Retried, Fits, IdLess, IsDueList;
    match e {
      case Poll(page, route) => if Fits(a.lastSeen, page) { PollKeeps(a, page, route); }
      case Retry(now, ingest) =>
        var due :| IsDueList(a, due, now) && b == Retried(a, due, now, ingest);
        RetryKeeps(a, due, now, ingest);
    }
  }

  /** Along any run of polls and retry passes: the queue stays within its cap, every
      status the cursor passed is accounted for or was missed, what is accounted
      for stays so, and the cursor never moves back. */
  lemma {:induction false} RunKeeps(trace: seq<Books>, events: seq<Event>, m: nat, n: nat)
    requires Run(trace, events) && Valid(trace[0]) && m <= n < |trace|
    ensures Valid(trace[m]) && Valid(trace[n]) && Covered(trace[m]) <= Covered(trace[n])
    ensures trace[n].lastSeen == trace[m].lastSeen
            || (trace[n].lastSeen != "" && (trace[m].lastSeen == "" || IdLess(trace[m].lastSeen, trace[n].lastSeen)))
    decreases n
  {
    hide Covered, IdLess, Step, QueueOk, Canonical;
    if m < n {
      RunKeeps(trace, events, m, n - 1);
      StepKeeps(trace[n - 1], events[n - 1], trace[n]);
      Chains(trace[m].lastSeen, trace[n - 1].lastSeen, trace[n].lastSeen);
    } else if n > 0 {
      RunKeeps(trace, events, n - 1, n - 1);
      StepKeeps(trace[n - 1], events[n - 1], trace[n]);
    }
  }

  /** The statuses handed in so far are those of the pages that fit. */
  predicate Fitting(a: Books, e: Event) { e.Poll? && Fits(a.lastSeen, e.page) }

  lemma {:induction false} WalkHands(b: Books, page: seq<Found>, route: Route)
    ensures var b1 := Walked(b, page, route).0; b1.handed == b.handed && b1.missed == b.missed
    decreases |page|
  {
    hide Met;
    if page != [] && Met(b, page[|page| - 1], route).Some? {
      MetHands(b, page[|page| - 1], route);
      WalkHands(Met(b, page[|page| - 1], route).value, page[..|page| - 1], route);
    }
  }

  lemma {:induction false} BackfillHands(b: Books, past: seq<Past>, route: Route)
    ensures var b1 := Backfilled(b, past, route); b1.handed == b.handed && b1.missed == b.missed
  {
    if past != [] { BackfillHands(b, past[..|past| - 1], route); }
  }

  lemma MetHands(b: Books, f: Found, route: Route)
    requires Met(b, f, route).Some?
    ensures var b1 := Met(b, f, route).value; b1.handed == b.handed && b1.missed == b.missed
  {
    var st := f.status;
    if !st.boost && HoldingPeer(b, st, f.now, route).None? {
      var b1 := if f.outcome == Done then b.(settled := b.settled + {st.uri}) else Failing(b, st, f.outcome, f.now, route).value;
      BackfillHands(b1.(lastSeen := Advanced(b1.lastSeen, st.id)), f.backfill, route);
    }
  }

  lemma {:induction false} TurnsHand(b: Books, due: seq<Deferred>, now: int, ingest: Ingest, n: nat)
    requires n <= |due|
    ensures var c := AfterTurns(b, due, now, ingest, n); c.handed == b.handed && c.missed == b.missed && c.lastSeen == b.lastSeen
  {
    if n > 0 { TurnsHand(b, due, now, ingest, n - 1); }
  }

  /** What one step hands in, and what it misses. */
  lemma StepHands(a: Books, e: Event, b: Books)
    requires Step(a, e, b)
    ensures b.handed == a.handed + if Fitting(a, e) then Statuses(e.page) else {}
    ensures forall st :: st in b.missed <==> st in a.missed || (Fitting(a, e) && LeftBehind(a, e.page, b.lastSeen, st))
  {
    hide Fits, Walked, Live, Dead, IdLess, Passed, IsDueList, Turned, Statuses;
    match e {
      case Poll(page, route) => WalkHands(a, page, route);
      case Retry(now, ingest) =>
        var due :| IsDueList(a, due, now) && b == Retried(a, due, now, ingest);
        TurnsHand(Swept(a, now), due, now, ingest, TurnsMade(Swept(a, now), due, now, ingest, 0));
    }
  }

  /** The statuses handed in are exactly those of the pages that fit. */
  lemma {:induction false} HandedExactly(trace: seq<Books>, events: seq<Event>, n: nat, st: Status)
    requires Run(trace, events) && n < |trace|
    ensures st in trace[n].handed <==>
      st in trace[0].handed || exists i :: 0 <= i < n && Fitting(trace[i], events[i]) && st in Statuses(events[i].page)
    decreases n
  {
    hide Step, Fitting, Statuses;
    if n > 0 {
      HandedExactly(trace, events, n - 1, st);
      StepHands(trace[n - 1], events[n - 1], trace[n]);
    }
  }

  /** A status is missed exactly when some poll passed it that its page left out
      although it had been handed in and not passed before. */
  lemma {:induction false} MissedExactly(trace: seq<Books>, events: seq<Event>, n: nat, st: Status)
    requires Run(trace, events) && n < |trace|
    ensures st in trace[n].missed <==>
      st in trace[0].missed || exists i :: 0 <= i < n && Fitting(trace[i], events[i])
                                           && LeftBehind(trace[i], events[i].page, trace[i + 1].lastSeen, st)
    decreases n
  {
    hide Step, Fitting, LeftBehind;
    if n > 0 {
      MissedExactly(trace, events, n - 1, st);
      StepHands(trace[n - 1], events[n - 1], trace[n]);
      assert trace[n - 1 + 1] == trace[n];
    }
  }

  /** Each page carries every status that was handed in and is not passed yet. */
  predicate Carries(a: Books, page: seq<Found>) {
    forall st <- a.handed :: !Passed(a.lastSeen, st.id) ==> st in Statuses(page)
  }

  /** With pages that leave none out, no status the cursor passes is lost: each is a
      boost, settled, routed nowhere, given up or queued. */
  lemma NoneMissed(trace: seq<Books>, events: seq<Event>, n: nat)
    requires Run(trace, events) && trace[0] == START && n < |trace|
    requires forall i :: 0 <= i < n && Fitting(trace[i], events[i]) ==> Carries(trace[i], events[i].page)
    ensures trace[n].missed == {}
    ensures forall st <- trace[n].handed :: Passed(trace[n].lastSeen, st.id) ==> Accounted(trace[n], st)
  {
    hide Step, Fitting, Accounted, Passed, Statuses, QueueOk;
    StartValid();
    RunKeeps(trace, events, 0, n);
    forall st
      ensures st !in trace[n].missed
    {
      MissedExactly(trace, events, n, st);
    }
  }

  /** What a poll left behind is accounted for all the same: a boost, or handled or queued otherwise. */
  predicate LeftSafely(a: Books, e: Event, b: Books) {
    Fitting(a, e) ==> forall st <- a.handed :: LeftBehind(a, e.page, b.lastSeen, st) ==> Accounted(b, st)
  }

  /** Every status handed in that the cursor has passed is accounted for. */
  predicate NoneLost(b: Books) { forall st <- b.handed :: Passed(b.lastSeen, st.id) ==> Accounted(b, st) }

  /** Exactly when a run loses no status, at any point of it: each poll accounts for
      what its page left out and it passed. */
  lemma NoneLostIff(trace: seq<Books>, events: seq<Event>, n: nat)
    requires Run(trace, events) && trace[0] == START && n < |trace|
    ensures (forall k :: 0 <= k <= n ==> NoneLost(trace[k])) <==>
            (forall i :: 0 <= i < n ==> LeftSafely(trace[i], events[i], trace[i + 1]))
  {
    hide Step, Fits, Accounted, Passed, Statuses, QueueOk, LeftBehind;
    if forall k :: 0 <= k <= n ==> NoneLost(trace[k]) {
      forall i | 0 <= i < n
        ensures LeftSafely(trace[i], events[i], trace[i + 1])
      {
        assert NoneLost(trace[i + 1]);
        if Fitting(trace[i], events[i]) { LeftIsPassed(trace[i], events[i], trace[i + 1]); }
      }
    }
    if forall i :: 0 <= i < n ==> LeftSafely(trace[i], events[i], trace[i + 1]) {
      forall k | 0 <= k <= n
        ensures NoneLost(trace[k])
      {
        forall st <- trace[k].handed | Passed(trace[k].lastSeen, st.id)
          ensures Accounted(trace[k], st)
        {
          PassedIsKept(trace, events, k, st);
        }
      }
    }
  }

  lemma LeftIsPassed(a: Books, e: Event, b: Books)
    requires Step(a, e, b) && Fitting(a, e)
    ensures forall st <- a.handed :: LeftBehind(a, e.page, b.lastSeen, st) ==> st in b.handed && Passed(b.lastSeen, st.id)
  {
    hide Step, Fits, Statuses, Passed;
    StepHands(a, e, b);
  }

  lemma PassedIsKept(trace: seq<Books>, events: seq<Event>, k: nat, st: Status)
    requires Run(trace, events) && trace[0] == START && k < |trace|
    requires forall i :: 0 <= i < k ==> LeftSafely(trace[i], events[i], trace[i + 1])
    requires st in trace[k].handed && Passed(trace[k].lastSeen, st.id)
    ensures Accounted(trace[k], st)
  {
    hide Step, Fits, Passed, Statuses, QueueOk, Covered, IdLess;
    StartValid();
    RunKeeps(trace, events, 0, k);
    if !Accounted(trace[k], st) {
      MissedExactly(trace, events, k, st);
      var i :| 0 <= i < k && Fitting(trace[i], events[i]) && LeftBehind(trace[i], events[i].page, trace[i + 1].lastSeen, st);
      assert LeftSafely(trace[i], events[i], trace[i + 1]) && st in trace[i].handed;
      RunKeeps(trace, events, i + 1, k);
    }
  }

  lemma StartValid()
    ensures Valid(START)
  {
  }

  lemma {:induction false} TurnsLeave(b: Books, due: seq<Deferred>, now: int, ingest: Ingest, n: nat, uri: string)
    requires n <= |due| && uri in b.queue
    ensures var c := AfterTurns(b, due, now, ingest, n); uri in c.queue || uri in c.settled
  {
    hide HeldBy, Again, Extended;
    if n > 0 { TurnsLeave(b, due, now, ingest, n - 1, uri); }
  }

  /** A queued post stays queued until an ingest of a retry pass settles it or it has
      waited a day. */
  lemma LeavesTheQueue(a: Books, e: Event, b: Books, uri: string)
    requires Valid(a) && Step(a, e, b) && uri in a.queue && uri !in b.queue
    ensures e.Retry? && (Expired(a.queue[uri], e.now) <==> uri !in Swept(a, e.now).queue)
    ensures if Expired(a.queue[uri], e.now) then uri in b.givenUp else uri in b.settled
  {
    hide IdLess, Canonical, IsDueList, Walked, Fits, Expired, QueueOk;
    match e {
      case Poll(page, route) => if Fits(a.lastSeen, page) { PollQueue(a, page, route); }
      case Retry(now, ingest) =>
        var due :| IsDueList(a, due, now) && b == Retried(a, due, now, ingest);
        var n := TurnsMade(Swept(a, now), due, now, ingest, 0);
        TurnsGiveUp(Swept(a, now), due, now, ingest, n);
        if !Expired(a.queue[uri], now) { TurnsLeave(Swept(a, now), due, now, ingest, n, uri); }
    }
  }

  lemma PollQueue(b: Books, page: seq<Found>, route: Route)
    requires Valid(b) && Fits(b.lastSeen, page)
    ensures b.queue.Keys <= Polled(b, page, route).queue.Keys
  {
    WalkKeeps(b, page, route);
  }

  lemma {:induction false} TurnsGiveUp(b: Books, due: seq<Deferred>, now: int, ingest: Ingest, n: nat)
    requires n <= |due|
    ensures AfterTurns(b, due, now, ingest, n).givenUp == b.givenUp
  {
    if n > 0 { TurnsGiveUp(b, due, now, ingest, n - 1); }
  }

  const HELD := Status("1", "uri", false)
  const NEWER := Status("2", "other", true)
  const FIRST_PAGE := [Found(HELD, 0, RateLimited, [])]
  const NEXT_PAGE := [Found(NEWER, 0, Done, [])]

  lemma OneThenTwo()
    ensures IdLess("1", "2") && !IdLess("2", "1")
  {
    assert Value("1") == 1 && Value("2") == 2 by { assert "1"[..0] == "" && "2"[..0] == ""; }
  }

  lemma HeldFirst(route: Route)
    ensures Polled(START, FIRST_PAGE, route) == START.(handed := {HELD})
  {
    assert Met(START, FIRST_PAGE[0], route) == None;
    assert Statuses(FIRST_PAGE) == {HELD} by { assert FIRST_PAGE[0].status == HELD; }
  }

  lemma PassedNext(route: Route)
    ensures Polled(START.(handed := {HELD}), NEXT_PAGE, route)
            == START.(lastSeen := "2", handed := {HELD, NEWER}, missed := {HELD})
  {
    OneThenTwo();
    hide IdLess;
    var a := START.(handed := {HELD});
    assert NEXT_PAGE[..0] == [];
    assert Walked(a.(lastSeen := "2"), NEXT_PAGE[..0], route) == (a.(lastSeen := "2"), 0);
    assert Met(a, NEXT_PAGE[0], route) == Some(a.(lastSeen := "2"));
    assert Statuses(NEXT_PAGE) == {NEWER} by { assert NEXT_PAGE[0].status == NEWER; }
  }

  /** And one can be lost otherwise: throttled on one page, left out of the next. */
  lemma CrowdedOut(route: Route) returns (events: seq<Event>, trace: seq<Books>)
    ensures Run(trace, events) && trace[0] == START && |trace| == 3
    ensures HELD in trace[1].handed && !Passed(trace[1].lastSeen, HELD.id)
    ensures Passed(trace[2].lastSeen, HELD.id) && !Accounted(trace[2], HELD) && HELD in trace[2].missed
  {
    HeldFirst(route);
    PassedNext(route);
    OneThenTwo();
    hide IdLess, Polled;
    events := [Poll(FIRST_PAGE, route), Poll(NEXT_PAGE, route)];
    trace := [START, START.(handed := {HELD}), START.(lastSeen := "2", handed := {HELD, NEWER}, missed := {HELD})];
    assert Step(trace[0], events[0], trace[1]);
    assert Step(trace[1], events[1], trace[2]);
  }
}
