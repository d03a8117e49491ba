/** The end-block pass that takes due tax pulls, with its nested cached contexts. */
module Harberger {
  import opened Wrappers

  datatype TokenId = TokenId(classId: nat, id: nat)

  datatype Key = Key(time: int, token: TokenId)

  /** A token's tax state; a grant or due time of 0 is none. */
  datatype Tax = Tax(grant: nat, nextDue: int, graceUntil: int, foreclosedAt: int, taxPaid: nat)

  datatype Grant = Grant(active: bool, nextClaim: int, expiresAt: int)

  /** `holders` is all that tax payers own; a token without tax state is `None`. */
  datatype World = World(
    due: set<Key>,
    tokens: map<TokenId, Option<Tax>>,
    grants: map<nat, Grant>,
    periods: map<nat, int>,
    holders: int,
    pot: int,
    pool: int)

  /** How a store or keeper call ends. */
  datatype Step = Works | Fails | Panics

  /** What session does with a claim. A claim that failed to pull moved nothing
      and keeps its grant transition; any other failure may leave the cache in
      any state, and the caller throws it away. */
  datatype Claim =
    | Pulled(amount: nat, bond: bool, grant: Grant)
    | NotPulled(grant: Grant)
    | Broken(left: World, panics: bool)

  /** How every call of one turn ends: first those of the turn, then those of re-queuing. */
  datatype Luck = Luck(
    remove: Step, read: Step, claim: Claim, fund: Step, look: Step, save: Step, index: Step,
    removeAgain: Step, readAgain: Step, saveAgain: Step, indexAgain: Step, drop: Step)

  datatype Taken = Paid(amount: nat, next: int) | Unpaid | Panicked

  datatype Payment = Payment(token: TokenId, amount: nat)

  predicate Taxed(w: World, id: TokenId) { id in w.tokens && w.tokens[id].Some? }

  function PaidBy(w: World, id: TokenId): nat {
    if Taxed(w, id) then w.tokens[id].value.taxPaid else 0
  }

  /** A token with a due time is in the index under that time. */
  predicate Queued(w: World, id: TokenId) {
    Taxed(w, id) && w.tokens[id].value.nextDue != 0 ==> Key(w.tokens[id].value.nextDue, id) in w.due
  }

  /** Only a token with a grant has a due time, and no entry is due at 0. */
  ghost predicate Granted(w: World) {
    && (forall id :: Taxed(w, id) && w.tokens[id].value.nextDue != 0 ==> w.tokens[id].value.grant != 0)
    && forall key <- w.due :: key.time != 0
  }

  predicate CanPay(w: World, grant: nat) {
    grant in w.grants && w.grants[grant].active && w.grants[grant].nextClaim < w.grants[grant].expiresAt
  }

  function Period(w: World, id: TokenId): int {
    if id.classId in w.periods then w.periods[id.classId] else 0
  }

  function Total(log: seq<Payment>): nat {
    if log == [] then 0 else Total(log[..|log| - 1]) + log[|log| - 1].amount
  }

  function TotalOf(log: seq<Payment>, id: TokenId): nat {
    if log == [] then 0
    else TotalOf(log[..|log| - 1], id) + if log[|log| - 1].token == id then log[|log| - 1].amount else 0
  }

  /** `w1` is `w0` after paying `amount` for the token alone: money, other tokens
      and other due entries are as they were. */
  ghost predicate Settled(w0: World, w1: World, id: TokenId, amount: nat) {
    && w1.pool == w0.pool + amount && w1.pot == w0.pot && w1.holders == w0.holders - amount
    && w1.tokens.Keys == w0.tokens.Keys && w1.periods == w0.periods
    && (forall other <- w0.tokens :: other != id ==> w1.tokens[other] == w0.tokens[other])
    && PaidBy(w1, id) == PaidBy(w0, id) + amount
    && (Taxed(w1, id) <==> Taxed(w0, id))
    && (forall key: Key :: key.token != id ==> (key in w1.due <==> key in w0.due))
    && (Granted(w0) ==> Granted(w1))
  }

  predicate IsDue(w: World, key: Key) {
    Taxed(w, key.token) && w.tokens[key.token].value.grant != 0 && w.tokens[key.token].value.nextDue == key.time
  }

  /** The pull reaches the community pool. */
  predicate Clears(luck: Luck) {
    luck.claim.Pulled? && luck.claim.bond && (luck.claim.amount == 0 || luck.fund == Works)
  }

  /** What a turn makes of a due token: taxed until the next pull, taxed for the
      last time and in grace, or foreclosed from its due time. A stale entry
      changes no token. */
  ghost predicate TurnDone(w0: World, w1: World, key: Key, luck: Luck, amount: nat) {
    if luck.read == Fails || !IsDue(w0, key) then amount == 0 && w1 == w0.(due := w0.due - {key})
    else
      var t, id := w0.tokens[key.token].value, key.token;
      if !Clears(luck) then
        amount == 0 && w1.tokens == w0.tokens[id := Some(t.(grant := 0, nextDue := 0, foreclosedAt := key.time))]
      else
        && amount == luck.claim.amount
        && w1.grants == w0.grants[t.grant := luck.claim.grant]
        && var next := NextPull(luck);
           var paid := t.(nextDue := next, taxPaid := t.taxPaid + amount);
           w1.tokens == w0.tokens[id := Some(if next != 0 then paid else paid.(grant := 0, graceUntil := key.time + Period(w0, id)))]
  }

  /** What the pull would set as the next due time. */
  function NextPull(luck: Luck): int
    requires luck.claim.Pulled?
  {
    var g := luck.claim.grant;
    if luck.look == Works && g.active && g.nextClaim < g.expiresAt then g.nextClaim else 0
  }

  predicate PullPanics(luck: Luck) {
    || (luck.claim.Broken? && luck.claim.panics)
    || (luck.claim.Pulled? && luck.claim.bond && luck.claim.amount > 0 && luck.fund == Panics)
    || (Clears(luck) && luck.look == Panics)
  }

  /** Exactly when a turn is rolled back. */
  predicate RollsBack(w: World, key: Key, luck: Luck) {
    || luck.remove != Works || luck.read == Panics
    || (luck.read == Works && IsDue(w, key)
        && (PullPanics(luck) || luck.save != Works || (Clears(luck) && NextPull(luck) != 0 && luck.index != Works)))
  }

  /** Exactly when re-queuing is rolled back too. */
  predicate RequeueFails(w: World, key: Key, luck: Luck) {
    || luck.removeAgain != Works || luck.readAgain == Panics
    || (luck.readAgain == Works && Taxed(w, key.token) && w.tokens[key.token].value.nextDue == key.time
        && (Period(w, key.token) <= 0 || luck.saveAgain != Works
            || (key.time + Period(w, key.token) != 0 && luck.indexAgain != Works)))
  }

  /** Exactly when a due token is left without its due entry: its record reads as
      missing, in the turn or in the fallback; or both are rolled back and the bare
      removal works, or there was no entry. */
  predicate Drops(w: World, key: Key, luck: Luck) {
    if !RollsBack(w, key, luck) then luck.read == Fails
    else if !RequeueFails(w, key, luck) then luck.readAgain == Fails
    else luck.drop == Works || key !in w.due
  }

  /** What one due entry comes to, with its rollbacks. */
  ghost predicate Stepped(w0: World, w1: World, key: Key, luck: Luck, amount: nat) {
    && Settled(w0, w1, key.token, amount)
    && (Queued(w1, key.token) <==> if IsDue(w0, key) then !Drops(w0, key, luck) else Queued(w0, key.token))
    && if !RollsBack(w0, key, luck) then TurnDone(w0, w1, key, luck, amount)
       else
         && amount == 0
         && w1.tokens == if IsDue(w0, key) && luck.readAgain == Works && !RequeueFails(w0, key, luck)
                         then w0.tokens[key.token := Some(w0.tokens[key.token].value.(nextDue := key.time + Period(w0, key.token)))]
                         else w0.tokens
  }

  // ----- the whole pass -----

  ghost predicate Pass(worlds: seq<World>, keys: seq<Key>, luck: seq<Luck>, log: seq<Payment>) {
    && |worlds| == |keys| + 1 && |luck| == |keys| == |log|
    && forall i :: 0 <= i < |keys| ==> log[i].token == keys[i].token && Stepped(worlds[i], worlds[i + 1], keys[i], luck[i], log[i].amount)
  }

  /** Whatever fails and rolls back, the pool gains what the turns paid, each token's
      tax paid grows by its own payments, and the module account keeps nothing. */
  lemma {:induction false} PassPays(worlds: seq<World>, keys: seq<Key>, luck: seq<Luck>, log: seq<Payment>, n: nat, id: TokenId)
    requires Pass(worlds, keys, luck, log) && n <= |keys|
    ensures worlds[n].pool == worlds[0].pool + Total(log[..n]) && worlds[n].holders == worlds[0].holders - Total(log[..n])
    ensures worlds[n].pot == worlds[0].pot
    ensures PaidBy(worlds[n], id) == PaidBy(worlds[0], id) + TotalOf(log[..n], id)
  {
    hide Queued, Drops, RollsBack, RequeueFails, TurnDone, IsDue, Granted;
    if n > 0 {
      PassPays(worlds, keys, luck, log, n - 1, id);
      assert Stepped(worlds[n - 1], worlds[n - 1 + 1], keys[n - 1], luck[n - 1], log[n - 1].amount);
      assert log[..n][..n - 1] == log[..n - 1];
    }
  }

  /** The last turn the token came due in, of the first `n`, dropped its entry. */
  ghost predicate LeftDropped(worlds: seq<World>, keys: seq<Key>, luck: seq<Luck>, n: nat, id: TokenId)
    requires |worlds| == |keys| + 1 && |luck| == |keys| && n <= |keys|
  {
    exists i :: 0 <= i < n && Due(worlds, keys, i, id) && Drops(worlds[i], keys[i], luck[i])
                && forall j :: i < j < n ==> !Due(worlds, keys, j, id)
  }

  predicate Due(worlds: seq<World>, keys: seq<Key>, i: nat, id: TokenId)
    requires i < |keys| && i < |worlds|
  {
    keys[i].token == id && IsDue(worlds[i], keys[i])
  }

  lemma LastDue(worlds: seq<World>, keys: seq<Key>, luck: seq<Luck>, n: nat, id: TokenId)
    requires |worlds| == |keys| + 1 && |luck| == |keys| && n < |keys|
    ensures LeftDropped(worlds, keys, luck, n + 1, id)
            <==> (if Due(worlds, keys, n, id) then Drops(worlds[n], keys[n], luck[n]) else LeftDropped(worlds, keys, luck, n, id))
  {
    hide Due, Drops;
    if Due(worlds, keys, n, id) {
      if Drops(worlds[n], keys[n], luck[n]) { assert LeftDropped(worlds, keys, luck, n + 1, id); }
    } else if LeftDropped(worlds, keys, luck, n, id) {
      var i :| 0 <= i < n && Due(worlds, keys, i, id) && Drops(worlds[i], keys[i], luck[i])
               && forall j :: i < j < n ==> !Due(worlds, keys, j, id);
      assert forall j :: i < j < n + 1 ==> !Due(worlds, keys, j, id);
    }
  }

  /** A token that was queued leaves the pass queued under its own due time, or with
      none, exactly unless the last turn it was due in dropped it. */
  lemma {:induction false} PassQueues(worlds: seq<World>, keys: seq<Key>, luck: seq<Luck>, log: seq<Payment>, n: nat, id: TokenId)
    requires Pass(worlds, keys, luck, log) && n <= |keys| && Queued(worlds[0], id)
    ensures Queued(worlds[n], id) <==> !LeftDropped(worlds, keys, luck, n, id)
  {
    if n == 0 { assert !LeftDropped(worlds, keys, luck, 0, id); }
    hide Queued, Drops, RollsBack, RequeueFails, TurnDone, IsDue, Granted, LeftDropped;
    if n > 0 {
      PassQueues(worlds, keys, luck, log, n - 1, id);
      assert Stepped(worlds[n - 1], worlds[n - 1 + 1], keys[n - 1], luck[n - 1], log[n - 1].amount);
      LastDue(worlds, keys, luck, n - 1, id);
      if keys[n - 1].token != id { OthersQueued(worlds[n - 1], worlds[n], keys[n - 1].token, log[n - 1].amount, id); }
    }
  }

  lemma OthersQueued(w0: World, w1: World, id: TokenId, amount: nat, other: TokenId)
    requires Settled(w0, w1, id, amount) && other != id
    ensures Queued(w1, other) <==> Queued(w0, other)
  {
    hide Granted;
  }

  /** What a due token is after a turn that was not rolled back, in the terms of the
      calls: foreclosed at its due time when the pull took nothing to the pool; due
      again when the grant has another claim before it expires; else in grace from
      its due time for one period, with no grant. */
  lemma TurnTells(w0: World, w1: World, key: Key, luck: Luck, amount: nat)
    requires Stepped(w0, w1, key, luck, amount) && IsDue(w0, key) && !RollsBack(w0, key, luck) && luck.read == Works
    ensures Taxed(w1, key.token)
    ensures
      var t0, t1, claim := w0.tokens[key.token].value, w1.tokens[key.token].value, luck.claim;
      if !claim.Pulled? || !claim.bond || (claim.amount > 0 && luck.fund != Works) then
        amount == 0 && t1 == Tax(0, 0, t0.graceUntil, key.time, t0.taxPaid)
      else if luck.look == Works && claim.grant.active && claim.grant.nextClaim < claim.grant.expiresAt && claim.grant.nextClaim != 0 then
        amount == claim.amount && t1 == Tax(t0.grant, claim.grant.nextClaim, t0.graceUntil, t0.foreclosedAt, t0.taxPaid + amount)
      else
        amount == claim.amount && t1 == Tax(0, 0, key.time + Period(w0, key.token), t0.foreclosedAt, t0.taxPaid + amount)
  {
    hide Queued, Granted, Drops, RequeueFails, RollsBack;
  }

  /** In grace or foreclosed, without a grant. */
  predicate Out(w: World, id: TokenId) { Taxed(w, id) && w.tokens[id].value.grant == 0 }

  /** Whatever entries the pass still meets for it, a token in grace or foreclosed pays
      no more and stays as it is. */
  lemma {:induction false} OutForGood(worlds: seq<World>, keys: seq<Key>, luck: seq<Luck>, log: seq<Payment>, m: nat, n: nat, id: TokenId)
    requires Pass(worlds, keys, luck, log) && m <= n <= |keys| && Out(worlds[m], id)
    ensures Out(worlds[n], id) && worlds[n].tokens[id] == worlds[m].tokens[id]
    ensures forall i :: m <= i < n && keys[i].token == id ==> log[i].amount == 0
    decreases n
  {
    hide Queued, Drops, RollsBack, RequeueFails, Granted;
    if m < n {
      OutForGood(worlds, keys, luck, log, m, n - 1, id);
      assert Stepped(worlds[n - 1], worlds[n - 1 + 1], keys[n - 1], luck[n - 1], log[n - 1].amount);
      OutStays(worlds[n - 1], worlds[n], keys[n - 1], luck[n - 1], log[n - 1].amount, id);
    }
  }

  lemma OutStays(w0: World, w1: World, key: Key, luck: Luck, amount: nat, id: TokenId)
    requires Stepped(w0, w1, key, luck, amount) && Out(w0, id)
    ensures Out(w1, id) && w1.tokens[id] == w0.tokens[id] && (key.token == id ==> amount == 0)
  {
    hide Queued, Drops, RollsBack, RequeueFails, Granted;
  }

  class Context {
    var world: World

    constructor (world: World)
      ensures this.world == world
    {
      this.world := world;
    }

    /** False when the call fails; the world is then as it was. */
    method RemoveDue(key: Key, step: Step) returns (ok: bool)
      modifies this
      ensures ok == (step == Works) && world == if ok then old(world).(due := old(world).due - {key}) else old(world)
    {
      ok := step == Works;
      if ok { world := world.(due := world.due - {key}); }
    }

    method SaveToken(id: TokenId, t: Tax, step: Step) returns (ok: bool)
      modifies this
      ensures ok == (step == Works) && world == if ok then old(world).(tokens := old(world).tokens[id := Some(t)]) else old(world)
    {
      ok := step == Works;
      if ok { world := world.(tokens := world.tokens[id := Some(t)]); }
    }

    method IndexDue(id: TokenId, t: Tax, step: Step) returns (ok: bool)
      modifies this
      ensures ok == (t.nextDue == 0 || step == Works)
      ensures world == if t.nextDue == 0 || !ok then old(world) else old(world).(due := old(world).due + {Key(t.nextDue, id)})
    {
      ok := true;
      if t.nextDue != 0 {
        ok := step == Works;
        if ok { world := world.(due := world.due + {Key(t.nextDue, id)}); }
      }
    }

    /** Session's claim, in this context. */
    method ClaimPull(grant: nat, claim: Claim)
      modifies this
      ensures world == match claim
        case Pulled(amount, bond, g) =>
          if bond then old(world).(grants := old(world).grants[grant := g], holders := old(world).holders - amount, pot := old(world).pot + amount)
          else old(world).(grants := old(world).grants[grant := g])
        case NotPulled(g) => old(world).(grants := old(world).grants[grant := g])
        case Broken(left, _) => left
    {
      match claim
      case Pulled(amount, bond, g) =>
        world := world.(grants := world.grants[grant := g]);
        if bond { world := world.(holders := world.holders - amount, pot := world.pot + amount); }
      case NotPulled(g) =>
        world := world.(grants := world.grants[grant := g]);
      case Broken(left, _) =>
        world := left;
    }

    /** Takes one due pull and passes it on to the community pool. What this
        leaves behind moved in full or not at all. */
    method CollectTax(grant: nat, luck: Luck) returns (r: Taken)
      modifies this
      ensures world.due == old(world).due && world.tokens == old(world).tokens && world.periods == old(world).periods
      ensures world.pot == old(world).pot && world.holders + world.pool == old(world).holders + old(world).pool
      ensures world.pool == old(world).pool + if r.Paid? then r.amount else 0
      ensures r.Paid? <==> Clears(luck) && luck.look != Panics
      ensures r.Panicked? <==> PullPanics(luck)
      ensures r.Unpaid? ==> !Clears(luck)
      ensures r.Paid? ==> r.amount == luck.claim.amount
      ensures r.Paid? ==> r.next == NextPull(luck)
      ensures world.grants == if r.Paid? || luck.claim.NotPulled? then old(world).grants[grant := luck.claim.grant] else old(world).grants
    {
      var cache := new Context(world);
      cache.ClaimPull(grant, luck.claim);
      match luck.claim {
        case Broken(_, panics) =>
          return if panics then Panicked else Unpaid;
        case NotPulled(_) =>
          world := cache.world;
          return Unpaid;
        case Pulled(amount, bond, _) =>
          if !bond {
            return Unpaid;
          }
          if amount > 0 {
            if luck.fund != Works {
              return if luck.fund == Panics then Panicked else Unpaid;
            }
            cache.world := cache.world.(pot := cache.world.pot - amount, pool := cache.world.pool + amount);
          }
          if luck.look == Panics {
            return Panicked;
          }
          world := cache.world;
          if luck.look == Fails || !CanPay(world, grant) {
            return Paid(amount, 0);
          }
          return Paid(amount, world.grants[grant].nextClaim);
      }
    }

    /** One due entry, in its own cached context. False when the turn must be
        rolled back. */
    method Turn(key: Key, luck: Luck) returns (ok: bool, ghost amount: nat)
      requires Granted(world) && key.time != 0
      modifies this
      ensures ok ==> Settled(old(world), world, key.token, amount) && Granted(world)
      ensures ok ==> key !in world.due || (Taxed(world, key.token) && key == Key(world.tokens[key.token].value.nextDue, key.token))
      ensures ok ==> TurnDone(old(world), world, key, luck, amount)
      ensures ok == !RollsBack(old(world), key, luck)
      ensures ok ==> (Queued(world, key.token) <==>
                      if old(IsDue(world, key)) then luck.read != Fails else old(Queued(world, key.token)))
    {
      ok, amount := true, 0;
      var id := key.token;
      var removed := RemoveDue(key, luck.remove);
      if !removed || luck.read == Panics {
        return false, 0;
      }
      if luck.read == Fails || !Taxed(world, id) || world.tokens[id].value.grant == 0 || world.tokens[id].value.nextDue != key.time {
        return;
      }
      var h := world.tokens[id].value;
      var taken := CollectTax(h.grant, luck);
      if taken.Panicked? {
        return false, 0;
      }
      if taken.Paid? { amount := taken.amount; }
      ok := Record(key, h, taken, luck);
    }

    /** Writes what came of a due token's pull. */
    method Record(key: Key, h: Tax, taken: Taken, luck: Luck) returns (ok: bool)
      requires Taxed(world, key.token) && world.tokens[key.token] == Some(h) && !taken.Panicked?
      modifies this
      ensures ok == (luck.save == Works && (taken.Paid? && taken.next != 0 ==> luck.index == Works))
      ensures ok ==>
        var t :=
          if taken.Paid? then
            var paid := h.(nextDue := taken.next, taxPaid := h.taxPaid + taken.amount);
            if taken.next != 0 then paid else paid.(grant := 0, graceUntil := key.time + Period(old(world), key.token))
          else h.(grant := 0, nextDue := 0, foreclosedAt := key.time);
        world == old(world).(tokens := old(world).tokens[key.token := Some(t)],
          due := old(world).due + if t.nextDue != 0 then {Key(t.nextDue, key.token)} else {})
    {
      if taken.Unpaid? {
        ok := SaveToken(key.token, h.(foreclosedAt := key.time, grant := 0, nextDue := 0), luck.save);
        return;
      }
      var t := h.(taxPaid := h.taxPaid + taken.amount);
      if taken.next == 0 {
        t := t.(grant := 0, nextDue := 0, graceUntil := key.time + Period(world, key.token));
      } else {
        t := t.(nextDue := taken.next);
      }
      ok := SaveToken(key.token, t, luck.save);
      if ok {
        ok := IndexDue(key.token, t, luck.index);
      }
    }

    /** The fallback: the token waits one more period. */
    method Requeue(key: Key, luck: Luck) returns (ok: bool)
      requires Granted(world) && key.time != 0
      modifies this
      ensures ok ==> Settled(old(world), world, key.token, 0)
      ensures ok ==> key !in world.due
      ensures ok == !RequeueFails(old(world), key, luck)
      ensures ok ==> world.tokens == if luck.readAgain == Works && old(IsDue(world, key))
        then old(world).tokens[key.token := Some(old(world).tokens[key.token].value.(nextDue := key.time + Period(old(world), key.token)))]
        else old(world).tokens
      ensures ok ==> (Queued(world, key.token) <==>
                      if old(IsDue(world, key)) then luck.readAgain != Fails else old(Queued(world, key.token)))
    {
      var id := key.token;
      var removed := RemoveDue(key, luck.removeAgain);
      if !removed || luck.readAgain == Panics {
        return false;
      }
      if luck.readAgain == Fails || !Taxed(world, id) || world.tokens[id].value.nextDue != key.time {
        return true;
      }
      var period := Period(world, id);
      if period <= 0 {
        return false;
      }
      var h := world.tokens[id].value.(nextDue := key.time + period);
      ok := SaveToken(id, h, luck.saveAgain);
      if ok {
        ok := IndexDue(id, h, luck.indexAgain);
      }
    }

    /** The turn, or when it fails the fallback, or when that fails too the bare
        removal of the entry. */
    method Safely(key: Key, luck: Luck) returns (ghost amount: nat)
      requires Granted(world) && key.time != 0
      modifies this
      ensures Stepped(old(world), world, key, luck, amount)
    {
      var cache := new Context(world);
      var ok;
      ok, amount := cache.Turn(key, luck);
      if ok {
        world := cache.world;
        return;
      }
      amount := 0;
      cache := new Context(world);
      ok := cache.Requeue(key, luck);
      if ok {
        world := cache.world;
      } else {
        ok := RemoveDue(key, luck.drop);
      }
    }

    /** The pass over the due entries: `log` lists what each turn paid, and `worlds`
        how it found and left things. */
    method CollectHarbergerTax(keys: seq<Key>, luck: seq<Luck>) returns (ghost worlds: seq<World>, ghost log: seq<Payment>)
      requires Granted(world) && |luck| == |keys| && forall key <- keys :: key in world.due
      modifies this
      ensures Pass(worlds, keys, luck, log) && worlds[0] == old(world) && worlds[|keys|] == world
      ensures world.pool == old(world).pool + Total(log)
      ensures world.pot == old(world).pot && world.holders == old(world).holders - Total(log)
      ensures forall id :: PaidBy(world, id) == PaidBy(old(world), id) + TotalOf(log, id)
      ensures Granted(world)
      ensures forall id :: old(Queued(world, id)) ==> (Queued(world, id) <==> !LeftDropped(worlds, keys, luck, |keys|, id))
    {
      worlds, log := [world], [];
      var i := 0;
      while i < |keys|
        invariant 0 <= i <= |keys| && Granted(world) && |worlds| == i + 1 && |log| == i
        invariant worlds[0] == old(world) && worlds[i] == world
        invariant forall j :: 0 <= j < i ==> log[j].token == keys[j].token && Stepped(worlds[j], worlds[j + 1], keys[j], luck[j], log[j].amount)
      {
        hide Stepped;
        ghost var before := world;
        ghost var amount := Safely(keys[i], luck[i]);
        StaysGranted(before, world, keys[i], luck[i], amount);
        log := log + [Payment(keys[i].token, amount)];
        worlds := worlds + [world];
        i := i + 1;
      }
      hide Stepped, Total, TotalOf, PaidBy, Queued, LeftDropped;
      assert log[..|keys|] == log;
      PassPays(worlds, keys, luck, log, |keys|, TokenId(0, 0));
      forall id
        ensures PaidBy(world, id) == PaidBy(old(world), id) + TotalOf(log, id)
        ensures Queued(old(world), id) ==> (Queued(world, id) <==> !LeftDropped(worlds, keys, luck, |keys|, id))
      {
        PassPays(worlds, keys, luck, log, |keys|, id);
        if Queued(old(world), id) { PassQueues(worlds, keys, luck, log, |keys|, id); }
      }
    }
  }

  lemma StaysGranted(w0: World, w1: World, key: Key, luck: Luck, amount: nat)
    requires Stepped(w0, w1, key, luck, amount) && Granted(w0)
    ensures Granted(w1)
  {
    hide Granted;
  }

  const TOKEN := TokenId(1, 1)

  /** An entry can be lost: one failed read of the token's record, and a taxed token
      with a due time is in the index no more. */
  method FailedReadDrops(luck: Luck) returns (ctx: Context)
    requires luck.remove == Works && luck.read == Fails
    ensures Taxed(ctx.world, TOKEN) && ctx.world.tokens[TOKEN].value.nextDue == 5 && ctx.world.due == {}
  {
    var t := Tax(7, 5, 0, 0, 0);
    ctx := new Context(World({Key(5, TOKEN)}, map[TOKEN := Some(t)], map[], map[1 := 10], 0, 0, 0));
    ghost var before := ctx.world;
    ghost var amount := ctx.Safely(Key(5, TOKEN), luck);
    assert IsDue(before, Key(5, TOKEN)) && Drops(before, Key(5, TOKEN), luck);
    assert TurnDone(before, ctx.world, Key(5, TOKEN), luck, amount);
  }
}
