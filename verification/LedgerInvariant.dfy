/** The invariant of the edition ledger and its proof for every primitive.

    `Near` is the invariant in the middle of a message: edition `id` is a
    working copy `e` not yet saved, and four books may be off by a known amount
    (units against supply, one holder's locked units against listings and
    outgoing transfers, reserved against pending mints, the pot against what it
    holds in trust). Each primitive shifts those four numbers; a message is
    correct when it brings them back to zero. */
module LedgerInvariant {
  import opened Ledger
  import opened MapSums

  type Balances = map<BalanceKey, Balance>
  type Inbox = map<nat, Pending>
  type Market = map<nat, Listing>

  // ----- the books -----

  function UnitsIn(id: EditionId): (BalanceKey, Balance) -> int {
    (k: BalanceKey, b: Balance) => if k.0 == id then b.amount + b.locked else 0
  }
  function RecordsIn(id: EditionId): (BalanceKey, Balance) -> int {
    (k: BalanceKey, b: Balance) => if k.0 == id then 1 else 0
  }
  function DepositOf(): (BalanceKey, Balance) -> int {
    (k: BalanceKey, b: Balance) => b.deposit
  }
  /** What a record is owed at a reward rate, in units of 10^-18 coin, before rounding. */
  function ExactClaim(b: Balance, rate: nat): int {
    Scaled(b.unclaimed) + (b.amount + b.locked) * (rate - b.rewardDebt)
  }
  function ClaimIn(id: EditionId, rate: nat): (BalanceKey, Balance) -> int {
    (k: BalanceKey, b: Balance) => if k.0 == id then ExactClaim(b, rate) else 0
  }
  function ReservedIn(id: EditionId): (nat, Pending) -> int {
    (i: nat, p: Pending) => if p.kind == UnitMint && p.edition == id then p.amount else 0
  }
  function OutgoingOf(k: BalanceKey): (nat, Pending) -> int {
    (i: nat, p: Pending) => if p.kind == UnitTransfer && (p.edition, p.from) == k then p.amount else 0
  }
  function EscrowOf(): (nat, Pending) -> int {
    (i: nat, p: Pending) => p.deposit
  }
  function ListedBy(k: BalanceKey): (nat, Listing) -> int {
    (i: nat, l: Listing) => if (l.edition, l.seller) == k then l.quantity else 0
  }
  function PoolOf(): (EditionId, int) -> int {
    (id: EditionId, n: int) => n
  }

  function RecordAt(m: Balances, k: BalanceKey): Balance {
    if k in m then m[k] else Balance(0, 0, 0, 0, 0)
  }

  // ----- the invariant -----

  /** The counters fit the cap, the hard ceiling and so 64 bits. */
  ghost predicate Capped(e: Edition) {
    && e.supply + e.burned + e.reserved <= HARD_MAX
    && (e.maxSupply > 0 ==> e.supply + e.burned + e.reserved <= e.maxSupply)
  }

  /** The edition's counters against the records and pending mints, and its
      reward pool against what its records are owed. */
  ghost predicate Counted(m: Balances, inbox: Inbox, pool: int, id: EditionId, e: Edition, units: int, reserved: int) {
    && Sum(m, UnitsIn(id)) == e.supply + units <= HARD_MAX
    && Sum(m, RecordsIn(id)) == e.holders
    && Sum(inbox, ReservedIn(id)) == e.reserved + reserved
    && Sum(m, ClaimIn(id, e.rewardPerUnit)) <= Scaled(pool)
  }

  ghost predicate Records(m: Balances, editions: map<EditionId, Edition>) {
    forall k :: k in m ==>
      && k.0 in editions
      && 0 < m[k].amount + m[k].locked
      && m[k].rewardDebt <= editions[k.0].rewardPerUnit
  }

  ghost predicate Index(byOwner: set<(Address, EditionId)>, m: Balances) {
    forall a: Address, id: EditionId :: (a, id) in byOwner <==> (id, a) in m
  }

  /** Locked units are listed or on their way out; holder `k` may be `off` above that. */
  ghost predicate Locks(m: Balances, market: Market, inbox: Inbox, k: BalanceKey, off: int) {
    forall j: BalanceKey ::
      RecordAt(m, j).locked == Sum(market, ListedBy(j)) + Sum(inbox, OutgoingOf(j)) + if j == k then off else 0
  }

  ghost predicate PendingOk(inbox: Inbox, seq_: nat, editions: map<EditionId, Edition>) {
    forall i :: i in inbox ==> i <= seq_ && inbox[i].edition in editions && 0 < inbox[i].amount
  }

  ghost predicate ListingsOk(market: Market, seq_: nat, editions: map<EditionId, Edition>) {
    forall i :: i in market ==> i <= seq_ && market[i].edition in editions && 0 < market[i].quantity
  }

  /** The module account holds the record deposits, the escrows and the reward pools. */
  ghost predicate Potted(c: Coins, m: Balances, inbox: Inbox, off: int) {
    c.pot == Sum(m, DepositOf()) + Sum(inbox, EscrowOf()) + Sum(c.pool, PoolOf()) + off
  }

  ghost predicate SettledOn(e: Edition, m: Balances, inbox: Inbox, pool: int, id: EditionId) {
    Capped(e) && Counted(m, inbox, pool, id, e, 0, 0)
  }

  ghost predicate Settled(s: State, id: EditionId)
    requires id in s.editions
  {
    SettledOn(s.editions[id], s.balances, s.pending, Pool(s.coins, id), id)
  }

  /** Everything but edition `id`'s own books and the two books that may be off. */
  ghost predicate Rest(s: State, id: EditionId) {
    && (forall j :: j in s.editions && j != id ==> Settled(s, j))
    && Records(s.balances, s.editions)
    && Index(s.byOwner, s.balances)
    && PendingOk(s.pending, s.pendingSeq, s.editions)
    && ListingsOk(s.listings, s.listingSeq, s.editions)
    && s.coins.pool.Keys <= s.editions.Keys
  }

  /** What holds between messages. */
  ghost predicate Inv(s: State) {
    match s
    case State(editions, balances, byOwner, pending, pendingSeq, listings, listingSeq, coins) =>
      && (forall id :: id in editions ==> SettledOn(editions[id], balances, pending, Pool(coins, id), id))
      && Records(balances, editions)
      && Index(byOwner, balances)
      && (forall k: BalanceKey ::
            RecordAt(balances, k).locked == Sum(listings, ListedBy(k)) + Sum(pending, OutgoingOf(k)))
      && PendingOk(pending, pendingSeq, editions)
      && ListingsOk(listings, listingSeq, editions)
      && coins.pool.Keys <= editions.Keys
      && Potted(coins, balances, pending, 0)
  }

  datatype Slack = Slack(units: int, locked: int, reserved: int, pot: int)

  const LEVEL := Slack(0, 0, 0, 0)

  ghost predicate Near(s: State, id: EditionId, e: Edition, k: BalanceKey, d: Slack) {
    match d
    case Slack(units, locked, reserved, pot) =>
      && id in s.editions
      && e.rewardPerUnit == s.editions[id].rewardPerUnit
      && Capped(e)
      && Counted(s.balances, s.pending, Pool(s.coins, id), id, e, units, reserved)
      && Rest(s, id)
      && Locks(s.balances, s.listings, s.pending, k, locked)
      && Potted(s.coins, s.balances, s.pending, pot)
  }

  lemma Enter(s: State, id: EditionId, k: BalanceKey)
    requires Inv(s) && id in s.editions
    ensures Near(s, id, s.editions[id], k, LEVEL)
  {
  }

  lemma Leave(s: State, id: EditionId, e: Edition, k: BalanceKey)
    requires Near(s, id, e, k, LEVEL)
    ensures Inv(SaveEdition(s, id, e))
  {
    var t := SaveEdition(s, id, e);
    forall j | j in t.editions
      ensures SettledOn(t.editions[j], t.balances, t.pending, Pool(t.coins, j), j)
    {
      assert j != id ==> Settled(s, j);
    }
  }

  // ----- bounds read off the books -----

  lemma HeldBound(s: State, id: EditionId, e: Edition, k: BalanceKey, d: Slack, a: Address)
    requires Near(s, id, e, k, d)
    ensures 0 <= RecordAt(s.balances, (id, a)).amount + RecordAt(s.balances, (id, a)).locked
              <= e.supply + d.units <= HARD_MAX
    ensures RecordAt(s.balances, (id, a)).rewardDebt <= e.rewardPerUnit
    ensures (id, a) in s.balances ==> 0 < s.balances[(id, a)].amount + s.balances[(id, a)].locked
  {
    SumBounds(s.balances, UnitsIn(id), (id, a));
  }

  lemma {:induction false} CountAtMostUnits(m: Balances, id: EditionId)
    requires forall k :: k in m ==> 0 < m[k].amount + m[k].locked
    ensures 0 <= Sum(m, RecordsIn(id)) <= Sum(m, UnitsIn(id))
    decreases m.Keys
  {
    if m != map[] {
      var k :| k in m;
      SumSplit(m, RecordsIn(id), k);
      SumSplit(m, UnitsIn(id), k);
      CountAtMostUnits(m - {k}, id);
    }
  }

  lemma Product(a: nat, b: nat)
    ensures 0 <= a * b
  {}

  lemma ClaimsNonNegative(m: Balances, editions: map<EditionId, Edition>, id: EditionId)
    requires Records(m, editions) && id in editions
    ensures NonNegative(m, ClaimIn(id, editions[id].rewardPerUnit))
  {
    forall k | k in m
      ensures 0 <= ClaimIn(id, editions[id].rewardPerUnit)(k, m[k])
    {
      if k.0 == id {
        Product(m[k].amount + m[k].locked, editions[id].rewardPerUnit - m[k].rewardDebt);
      }
    }
  }

  /** Every edition's pool is solvent, so the pools together cover any one of them. */
  lemma PoolCovers(s: State, id: EditionId, e: Edition, k: BalanceKey, d: Slack)
    requires Near(s, id, e, k, d)
    ensures 0 <= Pool(s.coins, id) <= Sum(s.coins.pool, PoolOf())
  {
    forall j | j in s.editions
      ensures 0 <= Pool(s.coins, j)
    {
      ClaimsNonNegative(s.balances, s.editions, j);
      SumSign(s.balances, ClaimIn(j, s.editions[j].rewardPerUnit));
      if j != id { assert Settled(s, j); }
    }
    forall j | j in s.coins.pool
      ensures 0 <= PoolOf()(j, s.coins.pool[j])
    {
      assert Pool(s.coins, j) == s.coins.pool[j];
    }
    SumBounds(s.coins.pool, PoolOf(), id);
  }

  // ----- one record rewritten -----

  /** The balances after writeBalance stores `b` at `k`. */
  function Put(m: Balances, k: BalanceKey, b: Balance): Balances {
    if b.amount + b.locked == 0 then m - {k} else m[k := b]
  }

  lemma PutSum(m: Balances, k: BalanceKey, b: Balance, f: (BalanceKey, Balance) -> int)
    ensures Sum(Put(m, k, b), f) == Sum(m, f) - At(m, f, k) + if b.amount + b.locked == 0 then 0 else f(k, b)
  {
    if b.amount + b.locked == 0 {
      SumDrop(m, f, k);
    } else {
      SumPut(m, f, k, b);
    }
  }

  function After(d: Slack, was: Balance, b: Balance, atKey: bool): Slack {
    Slack(d.units + (b.amount + b.locked) - (was.amount + was.locked),
          if atKey then d.locked + b.locked - was.locked else d.locked,
          d.reserved,
          d.pot + was.deposit - b.deposit)
  }

  /** When a write may store `b` over the record at `k`. */
  ghost predicate Writable(m: Balances, rate: nat, k: BalanceKey, b: Balance) {
    && b.amount + b.locked <= HARD_MAX
    && b.rewardDebt <= rate
    && (k in m || 0 < b.amount + b.locked)
    && ExactClaim(b, rate) <= (if k in m then ExactClaim(m[k], rate) else 0)
  }

  /** What a successful writeBalance did, store by store. */
  ghost predicate Wrote(s: State, e: Edition, k: BalanceKey, b: Balance, t: State, e1: Edition) {
    var empty := b.amount + b.locked == 0;
    && t == s.(balances := Put(s.balances, k, b),
               byOwner := if empty then s.byOwner - {(k.1, k.0)} else s.byOwner + {(k.1, k.0)},
               coins := t.coins)
    && t.coins.pot == s.coins.pot - (if empty then b.deposit + b.unclaimed else 0)
    && t.coins.pool == (if empty then s.coins.pool[k.0 := Pool(s.coins, k.0) - b.unclaimed] else s.coins.pool)
    && e1 == e.(holders := if !empty && k in s.balances then e.holders else Wrap(e.holders + if empty then -1 else 1))
  }

  lemma WriteShape(s: State, e: Edition, k: BalanceKey, b: Balance)
    requires b.amount + b.locked <= HARD_MAX
    requires k in s.balances || 0 < b.amount + b.locked
    ensures WriteBalance(s, e, k, b).Ok? <==> (b.amount + b.locked == 0 ==> b.deposit + b.unclaimed <= s.coins.pot)
    ensures WriteBalance(s, e, k, b).Ok? ==>
              Wrote(s, e, k, b, WriteBalance(s, e, k, b).value.0, WriteBalance(s, e, k, b).value.1)
  {
    if b.amount + b.locked == 0 && Refund(s.coins, k.1, b.deposit).Ok? {
      var c1 := Refund(s.coins, k.1, b.deposit).value;
      assert c1.pot == s.coins.pot - b.deposit && c1.pool == s.coins.pool;
      assert PayReward(c1, k, k.1, b.unclaimed).Ok? <==> b.unclaimed <= c1.pot;
    }
  }

  lemma PotCovers(s: State, id: EditionId, e: Edition, kk: BalanceKey, d: Slack, k: BalanceKey, b: Balance)
    requires Near(s, id, e, kk, d) && k.0 == id && Writable(s.balances, e.rewardPerUnit, k, b)
    requires 0 <= d.pot && b.deposit == RecordAt(s.balances, k).deposit
    requires b.amount + b.locked == 0
    ensures b.deposit + b.unclaimed <= s.coins.pot
  {
    PoolCovers(s, id, e, kk, d);
    ClaimsNonNegative(s.balances, s.editions, id);
    SumBounds(s.balances, ClaimIn(id, e.rewardPerUnit), k);
    SumBounds(s.balances, DepositOf(), k);
    SumSign(s.pending, EscrowOf());
    assert (b.amount + b.locked) * (e.rewardPerUnit - b.rewardDebt) == 0;
  }

  lemma WriteCounts(m: Balances, inbox: Inbox, editions: map<EditionId, Edition>, pool: int, id: EditionId,
                    e: Edition, e1: Edition, units: int, reserved: int, k: BalanceKey, b: Balance)
    requires Counted(m, inbox, pool, id, e, units, reserved) && k.0 == id && Writable(m, e.rewardPerUnit, k, b)
    requires Records(m, editions)
    requires e.supply + units + (b.amount + b.locked) - (RecordAt(m, k).amount + RecordAt(m, k).locked) <= HARD_MAX
    requires e1 == e.(holders := if 0 < b.amount + b.locked && k in m then e.holders
                                 else Wrap(e.holders + if b.amount + b.locked == 0 then -1 else 1))
    ensures Counted(Put(m, k, b), inbox, if b.amount + b.locked == 0 then pool - b.unclaimed else pool, id, e1,
                    units + (b.amount + b.locked) - (RecordAt(m, k).amount + RecordAt(m, k).locked), reserved)
  {
    var rate := e.rewardPerUnit;
    PutSum(m, k, b, UnitsIn(id));
    PutSum(m, k, b, RecordsIn(id));
    PutSum(m, k, b, ClaimIn(id, rate));
    CountAtMostUnits(m, id);
    SumBounds(m, RecordsIn(id), k);
    assert b.amount + b.locked == 0 ==> (b.amount + b.locked) * (rate - b.rewardDebt) == 0;
  }

  lemma OtherSettled(m: Balances, inbox: Inbox, pool: int, j: EditionId, e: Edition, k: BalanceKey, b: Balance)
    requires SettledOn(e, m, inbox, pool, j) && k.0 != j
    ensures SettledOn(e, Put(m, k, b), inbox, pool, j)
  {
    PutSum(m, k, b, UnitsIn(j));
    PutSum(m, k, b, RecordsIn(j));
    PutSum(m, k, b, ClaimIn(j, e.rewardPerUnit));
  }

  lemma WriteRest(s: State, id: EditionId, e: Edition, k: BalanceKey, b: Balance, t: State, e1: Edition)
    requires id in s.editions && e.rewardPerUnit == s.editions[id].rewardPerUnit
    requires Rest(s, id) && k.0 == id && Writable(s.balances, e.rewardPerUnit, k, b)
    requires Wrote(s, e, k, b, t, e1)
    ensures Rest(t, id)
  {
    hide SettledOn;
    forall j | j in t.editions && j != id
      ensures Settled(t, j)
    {
      assert Settled(s, j);
      OtherSettled(s.balances, s.pending, Pool(s.coins, j), j, s.editions[j], k, b);
    }
  }

  lemma PutPotted(c: Coins, c1: Coins, m: Balances, inbox: Inbox, off: int, k: BalanceKey, b: Balance)
    requires Potted(c, m, inbox, off)
    requires b.amount + b.locked == 0 ==>
               c1.pot == c.pot - b.deposit - b.unclaimed && c1.pool == c.pool[k.0 := Pool(c, k.0) - b.unclaimed]
    requires b.amount + b.locked > 0 ==> c1.pot == c.pot && c1.pool == c.pool
    ensures Potted(c1, Put(m, k, b), inbox, off + RecordAt(m, k).deposit - b.deposit)
  {
    PutSum(m, k, b, DepositOf());
    SumPut(c.pool, PoolOf(), k.0, Pool(c, k.0) - b.unclaimed);
  }

  lemma PutLocks(m: Balances, market: Market, inbox: Inbox, kk: BalanceKey, off: int, k: BalanceKey, b: Balance)
    requires Locks(m, market, inbox, kk, off)
    requires kk == k || b.locked == RecordAt(m, k).locked
    ensures Locks(Put(m, k, b), market, inbox, kk, if kk == k then off + b.locked - RecordAt(m, k).locked else off)
  {
  }

  lemma WroteKeeps(s: State, id: EditionId, e: Edition, kk: BalanceKey, d: Slack, k: BalanceKey, b: Balance, t: State, e1: Edition)
    requires Near(s, id, e, kk, d) && k.0 == id && Writable(s.balances, e.rewardPerUnit, k, b)
    requires kk == k || b.locked == RecordAt(s.balances, k).locked
    requires e.supply + After(d, RecordAt(s.balances, k), b, kk == k).units <= HARD_MAX
    requires Wrote(s, e, k, b, t, e1)
    ensures Near(t, id, e1, kk, After(d, RecordAt(s.balances, k), b, kk == k))
  {
    hide Counted, Potted, Locks, Writable;
    WriteCounts(s.balances, s.pending, s.editions, Pool(s.coins, id), id, e, e1, d.units, d.reserved, k, b);
    WriteRest(s, id, e, k, b, t, e1);
    PutPotted(s.coins, t.coins, s.balances, s.pending, d.pot, k, b);
    PutLocks(s.balances, s.listings, s.pending, kk, d.locked, k, b);
  }

  /** Writing a record shifts the books by what the record gained. */
  lemma WriteKeeps(s: State, id: EditionId, e: Edition, kk: BalanceKey, d: Slack, k: BalanceKey, b: Balance)
    requires Near(s, id, e, kk, d) && k.0 == id && Writable(s.balances, e.rewardPerUnit, k, b)
    requires kk == k || b.locked == RecordAt(s.balances, k).locked
    requires e.supply + After(d, RecordAt(s.balances, k), b, kk == k).units <= HARD_MAX
    ensures WriteBalance(s, e, k, b).Ok? ==>
      var (t, e1) := WriteBalance(s, e, k, b).value;
      Near(t, id, e1, kk, After(d, RecordAt(s.balances, k), b, kk == k))
    ensures 0 <= d.pot && b.deposit == RecordAt(s.balances, k).deposit ==> WriteBalance(s, e, k, b).Ok?
    ensures 0 < b.amount + b.locked ==> WriteBalance(s, e, k, b).Ok?
  {
    WriteShape(s, e, k, b);
    if WriteBalance(s, e, k, b).Ok? {
      var (t, e1) := WriteBalance(s, e, k, b).value;
      WroteKeeps(s, id, e, kk, d, k, b, t, e1);
    } else if 0 <= d.pot && b.deposit == RecordAt(s.balances, k).deposit {
      PotCovers(s, id, e, kk, d, k, b);
    }
  }
}
