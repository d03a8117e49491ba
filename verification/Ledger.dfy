/** The edition unit ledger of x/artifact as values: the stores a message
    touches, the keeper's primitives (settle, writeBalance, credit, debit,
    lockUnits, parkUnits, ...) and the messages built from them.

    Each step is a function from a ledger to a new ledger or an error; a
    message that returns an error leaves the ledger it started from, as a
    failed transaction does. The class in Keeper.dfy does the same work store
    by store. */
module Ledger {

  datatype Result<+T> = Ok(value: T) | Err {
    predicate IsFailure() { Err? }
    function PropagateFailure<U>(): Result<U>
      requires Err?
    { Err }
    function Extract(): T
      requires Ok?
    { value }
  }

  // ----- data -----

  type Address = string

  /** (class id, edition id) */
  type EditionId = (nat, nat)

  /** (class id, edition id, owner), with the first two taken together */
  type BalanceKey = (EditionId, Address)

  datatype Edition = Edition(
    supply: nat, burned: nat, reserved: nat, holders: nat,
    maxSupply: nat, rewardPerUnit: nat)

  datatype Balance = Balance(amount: nat, locked: nat, deposit: nat, rewardDebt: nat, unclaimed: nat)

  datatype Kind = UnitMint | UnitTransfer

  datatype Pending = Pending(kind: Kind, edition: EditionId, from: Address, to: Address, amount: nat, deposit: nat)

  datatype Listing = Listing(edition: EditionId, seller: Address, quantity: nat)

  datatype Outcome = Accepted | Rejected | Cancelled | Expired

  /** The money. `pot` is the module account's bond-denom balance and `burnt`
      the coins burned so far. `pool` and `rewarded` are bookkeeping the chain
      does not store: the reward coins held for an edition, and the rewards ever
      paid out on a balance key. No step reads them to decide anything. */
  datatype Coins = Coins(
    wallets: map<Address, nat>, pot: nat, burnt: nat,
    pool: map<EditionId, int>, rewarded: map<BalanceKey, int>)

  datatype State = State(
    editions: map<EditionId, Edition>,
    balances: map<BalanceKey, Balance>,
    byOwner: set<(Address, EditionId)>,
    pending: map<nat, Pending>, pendingSeq: nat,
    listings: map<nat, Listing>, listingSeq: nat,
    coins: Coins)

  function Genesis(wallets: map<Address, nat>): State {
    State(map[], map[], {}, map[], 0, map[], 0, Coins(wallets, 0, 0, map[], map[]))
  }

  // ----- 64-bit counters -----

  const TWO64: nat := 0x1_0000_0000_0000_0000
  const HARD_MAX: nat := 1_000_000_000_000_000

  /** The fixed-point scale of an edition's reward per unit. */
  function Scaled(n: int): int { 1_000_000_000_000_000_000 * n }

  /** What a uint64 holds after an addition or subtraction. */
  function Wrap(n: int): nat { n % 0x1_0000_0000_0000_0000 }

  function AddUnits(a: nat, n: nat): Result<nat> {
    if n > HARD_MAX || a > HARD_MAX - n then Err else Ok(a + n)
  }

  function IssuedUnits(e: Edition): nat { Wrap(e.supply + e.burned + e.reserved) }

  function CheckUnitSupply(e: Edition, n: nat): Result<nat> {
    var issued :- AddUnits(IssuedUnits(e), n);
    if e.maxSupply > 0 && issued > e.maxSupply then Err else Ok(issued)
  }

  function Units(b: Balance): nat { Wrap(b.amount + b.locked) }

  // ----- rewards -----

  function Accrued(b: Balance, rewardPerUnit: nat): nat {
    if rewardPerUnit <= b.rewardDebt || Units(b) == 0 then 0
    else (rewardPerUnit - b.rewardDebt) * Units(b) / Scaled(1)
  }

  function Claimable(b: Balance, rewardPerUnit: nat): nat {
    b.unclaimed + Accrued(b, rewardPerUnit)
  }

  function RewardPerUnitDelta(amount: nat, units: nat): nat {
    if units == 0 then 0 else Scaled(amount) / units
  }

  function Settle(b: Balance, e: Edition): Balance {
    b.(unclaimed := Claimable(b, e.rewardPerUnit), rewardDebt := e.rewardPerUnit)
  }

  // ----- coins -----

  function Wallet(c: Coins, a: Address): nat { if a in c.wallets then c.wallets[a] else 0 }

  function Pool(c: Coins, id: EditionId): int { if id in c.pool then c.pool[id] else 0 }

  function Rewarded(c: Coins, k: BalanceKey): int { if k in c.rewarded then c.rewarded[k] else 0 }

  function Collect(c: Coins, from: Address, n: nat): Result<Coins> {
    if n == 0 then Ok(c)
    else if Wallet(c, from) < n then Err
    else Ok(c.(wallets := c.wallets[from := Wallet(c, from) - n], pot := c.pot + n))
  }

  function Refund(c: Coins, to: Address, n: nat): Result<Coins> {
    if n == 0 then Ok(c)
    else if c.pot < n then Err
    else Ok(c.(wallets := c.wallets[to := Wallet(c, to) + n], pot := c.pot - n))
  }

  function BurnFrom(c: Coins, from: Address, n: nat): Result<Coins> {
    var c1 :- Collect(c, from, n);
    if c1.pot < n then Err else Ok(c1.(pot := c1.pot - n, burnt := c1.burnt + n))
  }

  /** Pays rewards out of the module account for the record at `k`. */
  function PayReward(c: Coins, k: BalanceKey, to: Address, n: nat): Result<Coins> {
    var c1 :- Refund(c, to, n);
    Ok(c1.(pool := c1.pool[k.0 := Pool(c1, k.0) - n], rewarded := c1.rewarded[k := Rewarded(c1, k) + n]))
  }

  // ----- keeper primitives: the edition travels as a working copy -----

  function GetBalance(s: State, k: BalanceKey): Balance {
    if k in s.balances then s.balances[k] else Balance(0, 0, 0, 0, 0)
  }

  function WriteBalance(s: State, e: Edition, k: BalanceKey, b: Balance): Result<(State, Edition)> {
    if Units(b) == 0 then
      if k !in s.balances then Ok((s, e))
      else
        var c1 :- Refund(s.coins, k.1, b.deposit);
        var c2 :- PayReward(c1, k, k.1, b.unclaimed);
        Ok((s.(balances := s.balances - {k}, byOwner := s.byOwner - {(k.1, k.0)}, coins := c2),
            e.(holders := Wrap(e.holders - 1))))
    else
      var e1 := if k in s.balances then e else e.(holders := Wrap(e.holders + 1));
      Ok((s.(balances := s.balances[k := b], byOwner := s.byOwner + {(k.1, k.0)}), e1))
  }

  /** Who funds the deposit of a record `credit` creates. */
  datatype Funding =
    | Escrowed(escrow: nat, escrowFrom: Address)
    | PaidBy(payer: Address, tokenDeposit: nat)

  function Credit(s: State, e: Edition, k: BalanceKey, amount: nat, f: Funding): Result<(State, Edition)> {
    var b := GetBalance(s, k);
    if k in s.balances then
      var c1 :- if f.Escrowed? then Refund(s.coins, f.escrowFrom, f.escrow) else Ok(s.coins);
      var b1 := Settle(b, e);
      var total :- AddUnits(b1.amount, amount);
      WriteBalance(s.(coins := c1), e, k, b1.(amount := total))
    else
      var c1 :- if f.Escrowed? then Ok(s.coins) else Collect(s.coins, f.payer, f.tokenDeposit);
      var deposit := if f.Escrowed? then f.escrow else f.tokenDeposit;
      var total :- AddUnits(b.amount, amount);
      WriteBalance(s.(coins := c1), e, k, b.(amount := total, deposit := deposit, rewardDebt := e.rewardPerUnit))
  }

  function Debit(s: State, e: Edition, k: BalanceKey, amount: nat, fromLocked: bool): Result<(State, Edition)> {
    var b := GetBalance(s, k);
    var have := if fromLocked then b.locked else b.amount;
    if k !in s.balances || have < amount then Err
    else
      var b1 := Settle(b, e);
      WriteBalance(s, e, k, if fromLocked then b1.(locked := b1.locked - amount) else b1.(amount := b1.amount - amount))
  }

  function LockUnits(s: State, e: Edition, k: BalanceKey, amount: nat, unlock: bool): Result<(State, Edition)> {
    var b := GetBalance(s, k);
    var from := if unlock then b.locked else b.amount;
    if k !in s.balances || from < amount then Err
    else if unlock then
      var total :- AddUnits(b.amount, amount);
      WriteBalance(s, e, k, b.(locked := b.locked - amount, amount := total))
    else
      var total :- AddUnits(b.locked, amount);
      WriteBalance(s, e, k, b.(amount := b.amount - amount, locked := total))
  }

  /** The amounts the module parameters set, and whether both inbox caps have room. */
  datatype Terms = Terms(tokenDeposit: nat, inboxFee: nat, slotFree: bool)

  function ParkUnits(s: State, kind: Kind, id: EditionId, payer: Address, from: Address, to: Address,
                     amount: nat, t: Terms): Result<(State, nat)>
  {
    if !t.slotFree then Err
    else
      var c1 :- BurnFrom(s.coins, payer, t.inboxFee);
      var c2 :- Collect(c1, payer, t.tokenDeposit);
      var pid := s.pendingSeq + 1;
      var item := Pending(kind, id, from, to, amount, t.tokenDeposit);
      Ok((s.(pending := s.pending[pid := item], pendingSeq := pid, coins := c2), pid))
  }

  function MintUnitsTo(s: State, e: Edition, id: EditionId, minter: Address, recipient: Address,
                       amount: nat, direct: bool, t: Terms): Result<(State, Edition)>
  {
    if amount == 0 then Err
    else if direct then
      var (s1, e1) :- Credit(s, e, (id, recipient), amount, PaidBy(minter, t.tokenDeposit));
      var supply :- AddUnits(e1.supply, amount);
      Ok((s1, e1.(supply := supply)))
    else
      var (s1, pid) :- ParkUnits(s, UnitMint, id, minter, minter, recipient, amount, t);
      var reserved :- AddUnits(e.reserved, amount);
      Ok((s1, e.(reserved := reserved)))
  }

  function SaveEdition(s: State, id: EditionId, e: Edition): State {
    s.(editions := s.editions[id := e])
  }

  function ResolvePendingUnits(s: State, pid: nat, outcome: Outcome): Result<State> {
    if pid !in s.pending then Err
    else
      var pu := s.pending[pid];
      var s1 := s.(pending := s.pending - {pid});
      if pu.edition !in s1.editions then Err
      else
        var e0 := s1.editions[pu.edition];
        var mint := pu.kind == UnitMint;
        var e := if mint then e0.(reserved := Wrap(e0.reserved - pu.amount)) else e0;
        if outcome == Accepted then
          var (s2, e2) :- if !mint then Debit(s1, e, (pu.edition, pu.from), pu.amount, true)
                          else (var supply :- AddUnits(e.supply, pu.amount); Ok((s1, e.(supply := supply))));
          var (s3, e3) :- Credit(s2, e2, (pu.edition, pu.to), pu.amount, Escrowed(pu.deposit, pu.from));
          Ok(SaveEdition(s3, pu.edition, e3))
        else
          var (s2, e2) :- if !mint then LockUnits(s1, e, (pu.edition, pu.from), pu.amount, true) else Ok((s1, e));
          var c3 :- Refund(s2.coins, pu.from, pu.deposit);
          Ok(SaveEdition(s2.(coins := c3), pu.edition, e2))
  }

  function RemoveUnitListing(s: State, lid: nat): Result<State> {
    if lid !in s.listings then Err
    else
      var l := s.listings[lid];
      var s1 := s.(listings := s.listings - {lid});
      if l.quantity == 0 then Ok(s1)
      else if l.edition !in s1.editions then Err
      else
        var (s2, e2) :- LockUnits(s1, s1.editions[l.edition], (l.edition, l.seller), l.quantity, true);
        Ok(SaveEdition(s2, l.edition, e2))
  }

  // ----- messages -----

  datatype Entry = Entry(recipient: Address, amount: nat, direct: bool, slotFree: bool)

  datatype Op =
    | CreateEdition(id: EditionId, maxSupply: nat, creator: Address, fee: nat)
    | MintUnits(id: EditionId, minter: Address, entries: seq<Entry>, tokenDeposit: nat, inboxFee: nat)
    | TransferUnits(id: EditionId, sender: Address, holder: Address, to: Address, amount: nat, direct: bool, terms: Terms)
    | ListUnits(id: EditionId, seller: Address, amount: nat)
    | UpdateUnitListing(listing: nat, amount: nat)
    | DelistUnits(listing: nat)
    | BuyUnits(listing: nat, buyer: Address, amount: nat, tokenDeposit: nat)
    | BurnUnits(id: EditionId, holder: Address, amount: nat)
    | FundEdition(id: EditionId, funder: Address, amount: nat)
    | ClaimRewards(id: EditionId, holder: Address, payee: Address)
    | SetMaxSupply(id: EditionId, maxSupply: nat)
    | Resolve(item: nat, outcome: Outcome)

  /** The batch total, refusing empty entries and a sum that wrapped. */
  function BatchTotal(entries: seq<Entry>, sofar: nat): Result<nat> {
    if entries == [] then Ok(sofar)
    else
      var total := Wrap(sofar + entries[0].amount);
      if entries[0].amount == 0 || total < entries[0].amount then Err
      else BatchTotal(entries[1..], total)
  }

  function MintEach(s: State, e: Edition, id: EditionId, minter: Address, entries: seq<Entry>,
                    tokenDeposit: nat, inboxFee: nat): Result<(State, Edition)>
    decreases |entries|
  {
    if entries == [] then Ok((s, e))
    else
      var x := entries[0];
      var (s1, e1) :- MintUnitsTo(s, e, id, minter, x.recipient, x.amount, x.direct,
                                  Terms(tokenDeposit, inboxFee, x.slotFree));
      MintEach(s1, e1, id, minter, entries[1..], tokenDeposit, inboxFee)
  }

  function ApplyMint(s: State, op: Op): Result<State>
    requires op.MintUnits?
  {
    if op.id !in s.editions || exists i :: 0 <= i < |op.entries| && op.entries[i].amount >= TWO64 then Err
    else
      var e := s.editions[op.id];
      var total :- BatchTotal(op.entries, 0);
      var _ :- CheckUnitSupply(e, total);
      var (s1, e1) :- MintEach(s, e, op.id, op.minter, op.entries, op.tokenDeposit, op.inboxFee);
      Ok(SaveEdition(s1, op.id, e1))
  }

  function ApplyTransfer(s: State, op: Op): Result<State>
    requires op.TransferUnits?
  {
    if op.id !in s.editions || op.amount == 0 then Err
    else
      var e := s.editions[op.id];
      if op.direct then
        var (s1, e1) :- Debit(s, e, (op.id, op.holder), op.amount, false);
        var (s2, e2) :- Credit(s1, e1, (op.id, op.to), op.amount, PaidBy(op.sender, op.terms.tokenDeposit));
        Ok(SaveEdition(s2, op.id, e2))
      else
        var (s1, e1) :- LockUnits(s, e, (op.id, op.holder), op.amount, false);
        var (s2, pid) :- ParkUnits(s1, UnitTransfer, op.id, op.sender, op.holder, op.to, op.amount, op.terms);
        Ok(SaveEdition(s2, op.id, e1))
  }

  function ApplyList(s: State, op: Op): Result<State>
    requires op.ListUnits?
  {
    if op.id !in s.editions || op.amount == 0 then Err
    else
      var (s1, e1) :- LockUnits(s, s.editions[op.id], (op.id, op.seller), op.amount, false);
      var lid := s1.listingSeq + 1;
      var s2 := s1.(listings := s1.listings[lid := Listing(op.id, op.seller, op.amount)], listingSeq := lid);
      Ok(SaveEdition(s2, op.id, e1))
  }

  /** Locks or unlocks the difference between two listed quantities. */
  function Relock(s: State, e: Edition, k: BalanceKey, was: nat, wanted: nat): Result<(State, Edition)> {
    if wanted > was then LockUnits(s, e, k, wanted - was, false)
    else if wanted < was then LockUnits(s, e, k, was - wanted, true)
    else Ok((s, e))
  }

  function ApplyUpdateListing(s: State, op: Op): Result<State>
    requires op.UpdateUnitListing?
  {
    if op.listing !in s.listings || op.amount == 0 || s.listings[op.listing].edition !in s.editions then Err
    else
      var l := s.listings[op.listing];
      var e := s.editions[l.edition];
      var k := (l.edition, l.seller);
      var (s1, e1) :- Relock(s, e, k, l.quantity, op.amount);
      var s2 := SaveEdition(s1, l.edition, e1);
      Ok(s2.(listings := s2.listings[op.listing := l.(quantity := op.amount)]))
  }

  function ApplyBuy(s: State, op: Op): Result<State>
    requires op.BuyUnits?
  {
    if op.listing !in s.listings || s.listings[op.listing].edition !in s.editions
       || op.amount == 0 || op.amount > s.listings[op.listing].quantity then Err
    else
      var l := s.listings[op.listing];
      var (s1, e1) :- Debit(s, s.editions[l.edition], (l.edition, l.seller), op.amount, true);
      var (s2, e2) :- Credit(s1, e1, (l.edition, op.buyer), op.amount, PaidBy(op.buyer, op.tokenDeposit));
      var s3 := SaveEdition(s2, l.edition, e2);
      var rest := l.(quantity := l.quantity - op.amount);
      var s4 := s3.(listings := s3.listings[op.listing := rest]);
      if rest.quantity == 0 then RemoveUnitListing(s4, op.listing) else Ok(s4)
  }

  function ApplyBurn(s: State, op: Op): Result<State>
    requires op.BurnUnits?
  {
    if op.id !in s.editions || op.amount == 0 then Err
    else
      var (s1, e1) :- Debit(s, s.editions[op.id], (op.id, op.holder), op.amount, false);
      var e2 := e1.(supply := Wrap(e1.supply - op.amount));
      var burned :- AddUnits(e2.burned, op.amount);
      Ok(SaveEdition(s1, op.id, e2.(burned := burned)))
  }

  function ApplyFund(s: State, op: Op): Result<State>
    requires op.FundEdition?
  {
    if op.id !in s.editions || s.editions[op.id].supply == 0 then Err
    else
      var e := s.editions[op.id];
      var delta := RewardPerUnitDelta(op.amount, e.supply);
      if delta == 0 then Err
      else
        var c1 :- Collect(s.coins, op.funder, op.amount);
        var c2 := c1.(pool := c1.pool[op.id := Pool(c1, op.id) + op.amount]);
        Ok(SaveEdition(s.(coins := c2), op.id, e.(rewardPerUnit := e.rewardPerUnit + delta)))
  }

  /** The edition is not saved: a claim never changes its holder count. */
  function ApplyClaim(s: State, op: Op): Result<State>
    requires op.ClaimRewards?
  {
    var k := (op.id, op.holder);
    if op.id !in s.editions || k !in s.balances then Err
    else
      var b := Settle(s.balances[k], s.editions[op.id]);
      var (s1, _) :- WriteBalance(s, s.editions[op.id], k, b.(unclaimed := 0));
      var c2 :- PayReward(s1.coins, k, op.payee, b.unclaimed);
      Ok(s1.(coins := c2))
  }

  function ApplySetMaxSupply(s: State, op: Op): Result<State>
    requires op.SetMaxSupply?
  {
    if op.id !in s.editions then Err
    else
      var e := s.editions[op.id];
      if op.maxSupply == 0 || (e.maxSupply != 0 && op.maxSupply >= e.maxSupply)
         || op.maxSupply > HARD_MAX || op.maxSupply < IssuedUnits(e) then Err
      else Ok(SaveEdition(s, op.id, e.(maxSupply := op.maxSupply)))
  }

  function ApplyCreate(s: State, op: Op): Result<State>
    requires op.CreateEdition?
  {
    if op.id in s.editions || op.maxSupply > HARD_MAX then Err
    else
      var c1 :- BurnFrom(s.coins, op.creator, op.fee);
      Ok(SaveEdition(s.(coins := c1), op.id, Edition(0, 0, 0, 0, op.maxSupply, 0)))
  }

  function Apply(s: State, op: Op): Result<State> {
    match op
    case CreateEdition(_, _, _, _) => ApplyCreate(s, op)
    case MintUnits(_, _, _, _, _) => ApplyMint(s, op)
    case TransferUnits(_, _, _, _, _, _, _) => ApplyTransfer(s, op)
    case ListUnits(_, _, _) => ApplyList(s, op)
    case UpdateUnitListing(_, _) => ApplyUpdateListing(s, op)
    case DelistUnits(lid) => RemoveUnitListing(s, lid)
    case BuyUnits(_, _, _, _) => ApplyBuy(s, op)
    case BurnUnits(_, _, _) => ApplyBurn(s, op)
    case FundEdition(_, _, _) => ApplyFund(s, op)
    case ClaimRewards(_, _, _) => ApplyClaim(s, op)
    case SetMaxSupply(_, _) => ApplySetMaxSupply(s, op)
    case Resolve(pid, outcome) => ResolvePendingUnits(s, pid, outcome)
  }

  /** A message either takes effect or, on error, changes nothing. */
  function Deliver(s: State, op: Op): State {
    match Apply(s, op)
    case Ok(s1) => s1
    case Err => s
  }

  function Run(s: State, ops: seq<Op>): State
    decreases |ops|
  {
    if ops == [] then s else Deliver(Run(s, ops[..|ops| - 1]), ops[|ops| - 1])
  }
}
