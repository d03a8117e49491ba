/** The bridge's discovery and retry in place, held to the values of Discovery. */
module Bridge {
  import opened Wrappers
  import opened Sets
  import opened StatusId
  import opened Discovery

  /** One minute, doubled with each attempt after the first, at most thirty. */
  method RetryDelay(attempts: nat) returns (d: int)
    ensures d == Delay(attempts)
  {
    d := MINUTE;
    var i := 1;
    ghost var minutes := 1;
    while i < attempts && d < 30 * MINUTE
      invariant 1 <= i && (i <= attempts || i == 1)
      invariant minutes == Power2(i - 1) && d == 60_000_000_000 * minutes
      decreases attempts - i
    {
      d := d * 2;
      i := i + 1;
      minutes := minutes * 2;
    }
    if i < attempts { DoublingPasses(i - 1, attempts - 1); }
    d := if d < 30 * MINUTE then d else 30 * MINUTE;
  }

  lemma {:induction false} DoublingPasses(m: nat, n: nat)
    requires m <= n && 30 <= Power2(m)
    ensures 30 <= Power2(n)
    decreases n
  {
    if m < n { DoublingPasses(m, n - 1); }
  }

  class Bridge {
    var lastSeen: string
    var deferred: map<string, Deferred>
    var heldUntil: map<string, int>
    /** Why posts left discovery, every status it was handed, and those missed. */
    ghost var settled: set<string>
    ghost var unrouted: set<string>
    ghost var givenUp: set<string>
    ghost var handed: set<Status>
    ghost var missed: set<Status>

    ghost function Now(): Books
      reads this
    {
      Books(lastSeen, deferred, heldUntil, settled, unrouted, givenUp, handed, missed)
    }

    constructor ()
      ensures Now() == START
    {
      lastSeen, deferred, heldUntil := "", map[], map[];
      settled, unrouted, givenUp, handed, missed := {}, {}, {}, {}, {};
    }

    method AdvanceLastSeen(id: string)
      modifies this`lastSeen
      ensures lastSeen == Advanced(old(lastSeen), id)
    {
      if id == "" { return; }
      if lastSeen == "" || IdLess(lastSeen, id) {
        lastSeen := id;
      }
    }

    /** Queues a post, or counts one more attempt of a queued one. */
    method Defer(st: Status, peer: string, now: int) returns (ok: bool)
      modifies this`deferred
      ensures ok == Room(old(deferred), st.uri)
      ensures deferred == if ok then Deferring(old(deferred), st, peer, now) else old(deferred)
    {
      var d;
      if st.uri in deferred {
        d := deferred[st.uri];
      } else {
        if |deferred| >= MAX_DEFERRED {
          return false;
        }
        d := Deferred(st, peer, 0, 0, Seconds(now));
      }
      var delay := RetryDelay(d.attempts + 1);
      deferred := deferred[st.uri := d.(attempts := d.attempts + 1, nextAt := Seconds(now + delay))];
      ok := true;
    }

    method HoldPeer(peer: string, until: int)
      modifies this`heldUntil
      ensures heldUntil == Extended(old(heldUntil), peer, until)
    {
      if peer !in heldUntil || until > heldUntil[peer] {
        heldUntil := heldUntil[peer := until];
      }
    }

    /** False when the failure must hold the cursor instead. */
    method DeferOrHold(st: Status, outcome: Outcome, now: int, route: Route) returns (ok: bool)
      requires outcome != Done
      modifies this`deferred, this`heldUntil, this`unrouted
      ensures ok == Failing(old(Now()), st, outcome, now, route).Some?
      ensures Now() == if ok then Failing(old(Now()), st, outcome, now, route).value else old(Now())
    {
      hide Deferring, Extended, Room;
      if outcome == RateLimited {
        return false;
      }
      var peer := route(st.uri);
      if peer.None? {
        unrouted := unrouted + {st.uri};
        return true;
      }
      ok := Defer(st, peer.value, now);
      if !ok {
        return false;
      }
      var delay := RetryDelay(1);
      HoldPeer(peer.value, now + delay);
    }

    method Backfill(past: seq<Past>, route: Route)
      modifies this`deferred, this`heldUntil, this`unrouted, this`settled
      ensures Now() == Backfilled(old(Now()), past, route)
    {
      hide Failing;
      var i := 0;
      while i < |past|
        invariant 0 <= i <= |past|
        invariant Now() == Backfilled(old(Now()), past[..i], route)
      {
        assert past[..i + 1][..i] == past[..i];
        var p := past[i];
        if p.outcome == Done {
          settled := settled + {p.uri};
        } else {
          var ok := DeferOrHold(Status("", p.uri, false), p.outcome, p.now, route);
        }
        i := i + 1;
      }
      assert past[..i] == past;
    }

    /** One status of the walk: what it does, and whether the walk may go on. */
    method Discover(f: Found, route: Route) returns (goOn: bool)
      modifies this`lastSeen, this`deferred, this`heldUntil, this`unrouted, this`settled
      ensures goOn == Met(old(Now()), f, route).Some?
      ensures Now() == if goOn then Met(old(Now()), f, route).value else old(Now())
    {
      hide Failing, Deferring, Advanced, Room, Backfilled;
      var st := f.status;
      goOn := true;
      if st.boost {
        AdvanceLastSeen(st.id);
        return;
      }
      var peer := route(st.uri);
      if peer.Some? && HeldBy(heldUntil, peer.value, f.now) {
        goOn := Defer(st, peer.value, f.now);
        if goOn {
          AdvanceLastSeen(st.id);
        }
        return;
      }
      if f.outcome == Done {
        settled := settled + {st.uri};
      } else {
        goOn := DeferOrHold(st, f.outcome, f.now, route);
        if !goOn {
          return;
        }
      }
      AdvanceLastSeen(st.id);
      Backfill(f.backfill, route);
    }

    /** Walks the page oldest first and stops at the first post that holds the cursor. */
    method PollOnce(page: seq<Found>, route: Route)
      modifies this
      ensures Now() == Polled(old(Now()), page, route)
    {
      hide Met;
      ghost var before := Now();
      var i := |page| - 1;
      assert page[..|page|] == page;
      while i >= 0
        invariant -1 <= i < |page|
        invariant Walked(before, page, route) == Walked(Now(), page[..i + 1], route)
        invariant handed == before.handed && missed == before.missed
      {
        assert page[..i + 1][..i] == page[..i] && page[..i + 1][i] == page[i];
        var goOn := Discover(page[i], route);
        if !goOn {
          break;
        }
        i := i - 1;
      }
      handed := before.handed + Statuses(page);
      missed := before.missed + set st | st in before.handed && LeftBehind(before, page, lastSeen, st);
    }

    /** Drops what has waited a day, and returns what is due, oldest first. */
    method DueDeferred(now: int) returns (due: seq<Deferred>)
      requires QueueOk(deferred)
      modifies this`deferred, this`givenUp
      ensures Now() == Swept(old(Now()), now) && IsDueList(old(Now()), due, now)
    {
      var todo := deferred.Keys;
      due := [];
      LiveStart(deferred, now);
      hide Expired, OldestFirst, Gathered, Live, Dead, QueueOk;
      while todo != {}
        invariant todo <= deferred.Keys <= old(deferred).Keys && QueueOk(deferred)
        invariant deferred == Live(old(deferred), todo, now) && givenUp == old(givenUp) + Dead(old(deferred), todo, now)
        invariant OldestFirst(due) && Gathered(due, deferred, todo, now)
        decreases todo
      {
        var uri :| uri in todo;
        LiveStep(old(deferred), todo, uri, now);
        due := Consider(uri, todo, due, now);
        todo := todo - {uri};
      }
    }

    method Consider(uri: string, ghost todo: set<string>, due: seq<Deferred>, now: int) returns (r: seq<Deferred>)
      requires QueueOk(deferred) && uri in todo && todo <= deferred.Keys
      requires OldestFirst(due) && Gathered(due, deferred, todo, now)
      modifies this`deferred, this`givenUp
      ensures QueueOk(deferred) && OldestFirst(r) && Gathered(r, deferred, todo - {uri}, now)
      ensures var gone := if Expired(old(deferred)[uri], now) then {uri} else {};
              deferred == old(deferred) - gone && givenUp == old(givenUp) + gone
    {
      hide IdLess, Canonical, Expired, Seconds, OldestFirst, Gathered, Distinct;
      GatherOne(due, deferred, todo, now, uri);
      r := due;
      var d := deferred[uri];
      if Expired(d, now) {
        Fewer((deferred - {uri}).Keys, deferred.Keys);
        deferred := deferred - {uri};
        givenUp := givenUp + {uri};
      } else if d.nextAt <= Seconds(now) {
        r := InsertOldest(due, d);
      }
    }

    /** One due post: not tried while its peer is held. True when the pass must stop. */
    method RetryTurn(d: Deferred, now: int, outcome: Outcome) returns (stop: bool)
      requires d.status.uri in deferred
      modifies this`deferred, this`heldUntil, this`settled
      ensures stop == Throttles(old(Now()), d, now, outcome)
      ensures Now() == if stop then old(Now()) else Turned(old(Now()), d, now, outcome)
    {
      hide Deferring, Extended;
      stop := false;
      if HeldBy(heldUntil, d.peer, now) {
        return;
      }
      if outcome == Done {
        deferred := deferred - {d.status.uri};
        settled := settled + {d.status.uri};
        return;
      }
      if outcome == RateLimited {
        return true;
      }
      var ok := Defer(d.status, d.peer, now);
      var delay := RetryDelay(d.attempts + 1);
      HoldPeer(d.peer, now + delay);
    }

    /** Re-runs the due posts in turn, until the instance throttles the bridge. */
    method RetryEach(due: seq<Deferred>, now: int, ingest: Ingest)
      requires Distinct(due) && Waiting(due, 0, deferred)
      modifies this`deferred, this`heldUntil, this`settled
      ensures Now() == AfterTurns(old(Now()), due, now, ingest, TurnsMade(old(Now()), due, now, ingest, 0))
    {
      hide Turned, HeldBy, Throttles, Distinct, Waiting;
      ghost var first := Now();
      var i := 0;
      while i < |due|
        invariant 0 <= i <= |due| && Now() == AfterTurns(first, due, now, ingest, i)
        invariant TurnsMade(first, due, now, ingest, 0) == TurnsMade(first, due, now, ingest, i)
      {
        var outcome := ingest(due[i].status.uri, i);
        WaitingAt(first, due, now, ingest, i, i);
        var stop := RetryTurn(due[i], now, outcome);
        if stop {
          return;
        }
        i := i + 1;
      }
    }

    method RetryDeferred(now: int, ingest: Ingest) returns (ghost due: seq<Deferred>)
      requires QueueOk(deferred)
      modifies this`deferred, this`heldUntil, this`settled, this`givenUp
      ensures IsDueList(old(Now()), due, now)
      ensures Now() == Retried(old(Now()), due, now, ingest)
    {
      hide OldestFirst, Live, Dead, QueueOk;
      var list := DueDeferred(now);
      due := list;
      RetryEach(list, now, ingest);
    }

    /** Any run of polls and retry passes is a run of the books. */
    method Run(events: seq<Event>) returns (ghost trace: seq<Books>)
      requires Valid(Now())
      modifies this
      ensures Discovery.Run(trace, events) && trace[0] == old(Now()) && trace[|events|] == Now()
      ensures Valid(Now())
    {
      hide Valid, Polled, Retried, Fits, IsDueList;
      trace := [Now()];
      var i := 0;
      while i < |events|
        invariant 0 <= i <= |events| && |trace| == i + 1 && trace[0] == old(Now()) && trace[i] == Now() && Valid(Now())
        invariant forall j :: 0 <= j < i ==> Step(trace[j], events[j], trace[j + 1])
      {
        ghost var was := Now();
        match events[i] {
          case Poll(page, route) =>
            if Fits(lastSeen, page) { PollOnce(page, route); }
          case Retry(now, ingest) =>
            assert QueueOk(deferred) by { ValidQueue(Now()); }
            ghost var due := RetryDeferred(now, ingest);
        }
        StepKeeps(was, events[i], Now());
        trace := trace + [Now()];
        i := i + 1;
      }
    }
  }

  lemma ValidQueue(b: Books)
    requires Valid(b)
    ensures QueueOk(b.queue)
  {
  }

  lemma LiveStart(queue: map<string, Deferred>, now: int)
    ensures Live(queue, queue.Keys, now) == queue && Dead(queue, queue.Keys, now) == {}
    ensures OldestFirst([]) && Gathered([], queue, queue.Keys, now)
  {
  }

  lemma LiveStep(queue: map<string, Deferred>, todo: set<string>, uri: string, now: int)
    requires uri in todo && uri in queue
    ensures var gone := if Expired(queue[uri], now) then {uri} else {};
            && Live(queue, todo - {uri}, now) == Live(queue, todo, now) - gone
            && Dead(queue, todo - {uri}, now) == Dead(queue, todo, now) + gone
    ensures Live(queue, todo, now)[uri] == queue[uri]
  {
  }

  lemma GatherOne(due: seq<Deferred>, queue: map<string, Deferred>, todo: set<string>, now: int, uri: string)
    requires Gathered(due, queue, todo, now) && uri in todo && uri in queue && queue[uri].status.uri == uri
    ensures Distinct(due) && forall e <- due :: e.status.uri != uri
    ensures Gathered(due, queue - {uri}, todo - {uri}, now)
    ensures queue[uri].nextAt > Seconds(now) ==> Gathered(due, queue, todo - {uri}, now)
    ensures queue[uri].nextAt <= Seconds(now) ==>
      forall r :: Distinct(r) && (forall e :: e in r <==> e == queue[uri] || e in due) ==> Gathered(r, queue, todo - {uri}, now)
  {
    hide Seconds, Expired;
  }

  method InsertOldest(due: seq<Deferred>, d: Deferred) returns (r: seq<Deferred>)
    requires OldestFirst(due) && Distinct(due) && Canonical(d.status.id)
    requires forall e <- due :: e.status.uri != d.status.uri
    ensures OldestFirst(r) && Distinct(r)
    ensures forall e :: e in r <==> e == d || e in due
  {
    hide IdLess, Canonical;
    var k := |due|;
    while k > 0 && IdLess(d.status.id, due[k - 1].status.id)
      invariant 0 <= k <= |due|
      invariant forall j :: k <= j < |due| ==> IdLess(d.status.id, due[j].status.id)
    {
      k := k - 1;
    }
    InsertKeepsOrder(due, d, k);
    InsertKeepsDistinct(due, d, k);
    hide *;
    r := due[..k] + [d] + due[k..];
  }

  lemma InsertKeepsDistinct(due: seq<Deferred>, d: Deferred, k: nat)
    requires k <= |due| && Distinct(due) && forall e <- due :: e.status.uri != d.status.uri
    ensures Distinct(due[..k] + [d] + due[k..])
    ensures forall e :: e in due[..k] + [d] + due[k..] <==> e == d || e in due
  {
    assert due == due[..k] + due[k..];
  }

  lemma InsertKeepsOrder(due: seq<Deferred>, d: Deferred, k: nat)
    requires OldestFirst(due) && Canonical(d.status.id) && k <= |due|
    requires k > 0 ==> !IdLess(d.status.id, due[k - 1].status.id)
    requires forall j :: k <= j < |due| ==> IdLess(d.status.id, due[j].status.id)
    ensures OldestFirst(due[..k] + [d] + due[k..])
  {
    hide IdLess, Canonical;
    forall j | k <= j < |due|
      ensures !IdLess(due[j].status.id, d.status.id)
    {
      Chains(d.status.id, due[j].status.id, d.status.id);
    }
    forall j | 0 <= j < k
      ensures !IdLess(d.status.id, due[j].status.id)
    {
      var last := due[k - 1].status.id;
      Chains(d.status.id, due[j].status.id, last);
      Chains(due[j].status.id, last, d.status.id);
      if j < k - 1 { assert !IdLess(last, due[j].status.id); }
    }
  }
}
