/** When a message is accepted, and what it costs: exact conditions over the state
    before it, and every wallet afterwards. */
module LedgerAdmission {
  import opened Ledger
  import opened MapSums
  import opened LedgerInvariant
  import opened LedgerSteps
  import opened LedgerMessages
  import opened LedgerHoldings
  import LedgerRewards

  // ----- the table of payments -----

  function Gets(a: Address, who: Address, n: int): int { if a == who then n else 0 }

  /** Taking `n` units empties the record. */
  predicate Empties(m: Balances, k: BalanceKey, n: nat) { k in m && m[k].amount + m[k].locked == n }

  /** What taking `n` units pays the record's owner. */
  function Payout(s: State, k: BalanceKey, n: nat): nat {
    if Empties(s.balances, k, n) && k.0 in s.editions
    then s.balances[k].deposit + Claimable(s.balances[k], s.editions[k.0].rewardPerUnit)
    else 0
  }

  /** The recipient has a record once `n` units have left `from`. */
  predicate HasRecord(m: Balances, from: BalanceKey, n: nat, to: BalanceKey) { to in m && !(to == from && Empties(m, from, n)) }

  /** A batch's price: a deposit for each recipient that has no record yet, once, and
      fee and deposit for each parked entry. */
  function BatchCost(known: set<Address>, entries: seq<Entry>, deposit: nat, fee: nat): nat
    decreases |entries|
  {
    if entries == [] then 0
    else
      var x := entries[0];
      if x.direct then (if x.recipient in known then 0 else deposit) + BatchCost(known + {x.recipient}, entries[1..], deposit, fee)
      else fee + deposit + BatchCost(known, entries[1..], deposit, fee)
  }

  ghost function Holders(m: Balances, id: EditionId): set<Address> { set k | k in m && k.0 == id :: k.1 }

  /** The fees of its parked entries, which are burned. */
  function ParkedFees(entries: seq<Entry>, fee: nat): nat {
    if entries == [] then 0 else (if entries[0].direct then 0 else fee) + ParkedFees(entries[1..], fee)
  }

  predicate SlotsFree(entries: seq<Entry>) { forall x <- entries :: x.direct || x.slotFree }

  predicate SomeEach(entries: seq<Entry>) { forall x <- entries :: 0 < x.amount }

  // ----- the primitives -----

  /** Only one wallet changed, and the coins burned. */
  ghost predicate Pays(c: Coins, c1: Coins, who: Address, n: int, burned: nat) {
    && c1.burnt == c.burnt + burned
    && forall a: Address :: Wallet(c1, a) == Wallet(c, a) + Gets(a, who, n)
  }

  lemma CollectPays(c: Coins, from: Address, n: nat)
    ensures Collect(c, from, n).Ok? <==> n <= Wallet(c, from)
    ensures Collect(c, from, n).Ok? ==> Pays(c, Collect(c, from, n).value, from, 0 - n, 0)
  {}

  lemma RefundsTo(c: Coins, to: Address, n: nat)
    ensures Refund(c, to, n).Ok? ==> Pays(c, Refund(c, to, n).value, to, n, 0)
  {}

  lemma BurnPays(c: Coins, from: Address, n: nat)
    ensures BurnFrom(c, from, n).Ok? <==> n <= Wallet(c, from)
    ensures BurnFrom(c, from, n).Ok? ==> Pays(c, BurnFrom(c, from, n).value, from, 0 - n, n)
  {
    if n <= Wallet(c, from) {
      var c1 := Collect(c, from, n).value;
      assert n <= c1.pot;
    }
  }

  lemma RewardPays(c: Coins, k: BalanceKey, to: Address, n: nat)
    ensures PayReward(c, k, to, n).Ok? ==> Pays(c, PayReward(c, k, to, n).value, to, n, 0)
  {
    hide Pays, Refund;
    RefundsTo(c, to, n);
    if Refund(c, to, n).Ok? { SameMoney(c, Refund(c, to, n).value, PayReward(c, k, to, n).value, to, n, 0); }
  }

  lemma SameMoney(c: Coins, c1: Coins, c2: Coins, who: Address, n: int, burned: nat)
    requires Pays(c, c1, who, n, burned) && c2.wallets == c1.wallets && c2.burnt == c1.burnt
    ensures Pays(c, c2, who, n, burned)
  {}

  lemma PaysTwice(c: Coins, c1: Coins, c2: Coins, who: Address, m: int, n: int, x: nat, y: nat)
    requires Pays(c, c1, who, m, x) && Pays(c1, c2, who, n, y)
    ensures Pays(c, c2, who, m + n, x + y)
  {
    hide Wallet;
  }

  /** A write pays only when it drops the record. */
  lemma DroppedPays(s: State, e: Edition, k: BalanceKey, b: Balance)
    requires b.amount <= HARD_MAX && b.locked <= HARD_MAX && k in s.balances && WriteBalance(s, e, k, b).Ok?
    ensures var t := WriteBalance(s, e, k, b).value.0; var gone := b.amount + b.locked == 0;
      && Pays(s.coins, t.coins, k.1, if gone then b.deposit + b.unclaimed else 0, 0)
      && t.balances == Put(s.balances, k, b)
  {
    hide Pays, Refund, PayReward;
    assert Units(b) == b.amount + b.locked;
    if b.amount + b.locked == 0 {
      var c1 := Refund(s.coins, k.1, b.deposit).value;
      RefundsTo(s.coins, k.1, b.deposit);
      RewardPays(c1, k, k.1, b.unclaimed);
      PaysTwice(s.coins, c1, PayReward(c1, k, k.1, b.unclaimed).value, k.1, b.deposit, b.unclaimed, 0, 0);
    } else {
      PaysNobody(s.coins, k.1);
    }
  }

  lemma PaysNobody(c: Coins, who: Address)
    ensures Pays(c, c, who, 0, 0)
  {}

  lemma NewPays(s: State, e: Edition, k: BalanceKey, b: Balance)
    requires 0 < b.amount + b.locked && b.amount <= HARD_MAX && b.locked <= HARD_MAX && WriteBalance(s, e, k, b).Ok?
    ensures var t := WriteBalance(s, e, k, b).value.0; t.coins == s.coins && t.balances == s.balances[k := b]
  {
    assert Units(b) == b.amount + b.locked;
  }

  /** A debit pays the owner of a record it empties, and drops that record only. */
  lemma DebitCosts(s: State, e: Edition, k: BalanceKey, n: nat, fromLocked: bool)
    requires Small(s.balances) && Debit(s, e, k, n, fromLocked).Ok?
    ensures k in s.balances
    ensures
      var t, b, gone := Debit(s, e, k, n, fromLocked).value.0, s.balances[k], Empties(s.balances, k, n);
      && Pays(s.coins, t.coins, k.1, if gone then b.deposit + Claimable(b, e.rewardPerUnit) else 0, 0)
      && t.balances.Keys == s.balances.Keys - if gone then {k} else {}
  {
    hide WriteBalance, Claimable, Pays;
    var b := Settle(s.balances[k], e);
    DroppedPays(s, e, k, if fromLocked then b.(locked := b.locked - n) else b.(amount := b.amount - n));
  }

  /** Locking and unlocking keep the record and cost nothing. */
  lemma LockCosts(s: State, e: Edition, k: BalanceKey, n: nat, unlock: bool, who: Address)
    requires Small(s.balances) && LockUnits(s, e, k, n, unlock).Ok? && k in s.balances && 0 < s.balances[k].amount + s.balances[k].locked
    ensures var t := LockUnits(s, e, k, n, unlock).value.0;
      Pays(s.coins, t.coins, who, 0, 0) && t.coins == s.coins && t.balances.Keys == s.balances.Keys
  {
    hide WriteBalance, Pays;
    var b := s.balances[k];
    NewPays(s, e, k, if unlock then b.(locked := b.locked - n, amount := b.amount + n)
                     else b.(amount := b.amount - n, locked := b.locked + n));
    PaysNobody(s.coins, who);
  }

  /** Who pays for a credit: the payer for a new record, and nobody otherwise; an
      escrow goes back when there is a record already, and into the new one if not. */
  function Payer(f: Funding): Address { if f.Escrowed? then f.escrowFrom else f.payer }

  function CreditGain(known: bool, f: Funding): int {
    match f
    case Escrowed(escrow, _) => if known then escrow else 0
    case PaidBy(_, deposit) => if known then 0 else 0 - deposit
  }

  lemma CreditCosts(s: State, e: Edition, k: BalanceKey, n: nat, f: Funding)
    requires Small(s.balances) && 0 < n && Credit(s, e, k, n, f).Ok?
    ensures
      var t := Credit(s, e, k, n, f).value.0;
      && Pays(s.coins, t.coins, Payer(f), CreditGain(k in s.balances, f), 0)
      && t.balances.Keys == s.balances.Keys + {k}
  {
    hide WriteBalance, Pays, Collect, Refund, Settle;
    var b, found := GetBalance(s, k), k in s.balances;
    CollectPays(s.coins, Payer(f), if f.PaidBy? then f.tokenDeposit else 0);
    RefundsTo(s.coins, Payer(f), if f.Escrowed? then f.escrow else 0);
    PaysNobody(s.coins, Payer(f));
    var c := if found then (if f.Escrowed? then Refund(s.coins, f.escrowFrom, f.escrow).value else s.coins)
             else (if f.Escrowed? then s.coins else Collect(s.coins, f.payer, f.tokenDeposit).value);
    var b1 := if found then Settle(b, e).(amount := b.amount + n)
              else b.(amount := n, deposit := if f.Escrowed? then f.escrow else f.tokenDeposit, rewardDebt := e.rewardPerUnit);
    SettleUnits(b, e);
    assert b.locked <= HARD_MAX;
    NewPays(s.(coins := c), e, k, b1);
  }

  lemma SettleUnits(b: Balance, e: Edition)
    ensures Settle(b, e).amount == b.amount && Settle(b, e).locked == b.locked
  {}

  /** The payer burns the inbox fee and escrows the deposit. */
  lemma ParkCosts(s: State, kind: Kind, id: EditionId, payer: Address, from: Address, to: Address, amount: nat, t: Terms)
    ensures ParkUnits(s, kind, id, payer, from, to, amount, t).Ok? <==> t.slotFree && t.inboxFee + t.tokenDeposit <= Wallet(s.coins, payer)
    ensures ParkUnits(s, kind, id, payer, from, to, amount, t).Ok? ==>
      var s1 := ParkUnits(s, kind, id, payer, from, to, amount, t).value.0;
      Pays(s.coins, s1.coins, payer, 0 - (t.inboxFee + t.tokenDeposit), t.inboxFee) && s1.balances == s.balances
  {
    hide BurnFrom, Collect;
    BurnPays(s.coins, payer, t.inboxFee);
    if BurnFrom(s.coins, payer, t.inboxFee).Ok? {
      var c1 := BurnFrom(s.coins, payer, t.inboxFee).value;
      CollectPays(c1, payer, t.tokenDeposit);
      if Collect(c1, payer, t.tokenDeposit).Ok? {
        PaysTwice(s.coins, c1, Collect(c1, payer, t.tokenDeposit).value, payer, 0 - t.inboxFee, 0 - t.tokenDeposit, t.inboxFee, 0);
      }
    }
  }

  // ----- minting -----

  lemma HoldersAdd(m: Balances, m1: Balances, id: EditionId, a: Address)
    requires m1.Keys == m.Keys + {(id, a)}
    ensures Holders(m1, id) == Holders(m, id) + {a}
  {
    assert (id, a) in m1;
    assert forall k <- m :: k in m1;
    assert forall k <- m1 :: k in m || k == (id, a);
  }

  lemma HoldersAre(m: Balances, id: EditionId, a: Address)
    ensures a in Holders(m, id) <==> (id, a) in m
  {}

  /** One entry: when it is accepted, what it costs, and who has a record after it. */
  lemma MintToCosts(s: State, e: Edition, id: EditionId, k: BalanceKey, minter: Address, x: Entry, t: Terms, rest: nat)
    requires Near(s, id, e, k, LEVEL) && Fits(e, x.amount + rest) && Small(s.balances) && 0 < x.amount && t.slotFree == x.slotFree
    ensures
      var known := x.recipient in Holders(s.balances, id);
      var cost := if x.direct then (if known then 0 else t.tokenDeposit) else t.inboxFee + t.tokenDeposit;
      var r := MintUnitsTo(s, e, id, minter, x.recipient, x.amount, x.direct, t);
      && (r.Ok? <==> (x.direct || x.slotFree) && cost <= Wallet(s.coins, minter))
      && (r.Ok? ==> var s1 := r.value.0;
            && Pays(s.coins, s1.coins, minter, 0 - cost, if x.direct then 0 else t.inboxFee)
            && Small(s1.balances)
            && Holders(s1.balances, id) == Holders(s.balances, id) + if x.direct then {x.recipient} else {})
  {
    hide Near, Credit, ParkUnits, Pays, Holders, Small;
    HoldersAre(s.balances, id, x.recipient);
    if x.direct {
      var f := PaidBy(minter, t.tokenDeposit);
      CreditKeeps(s, id, e, k, LEVEL, x.recipient, x.amount, f);
      if Credit(s, e, (id, x.recipient), x.amount, f).Ok? {
        CreditNeeds(s, e, (id, x.recipient), x.amount, f);
        CreditFrame(s, e, (id, x.recipient), x.amount, f);
        CreditCosts(s, e, (id, x.recipient), x.amount, f);
        CreditShifts(s, e, (id, x.recipient), x.amount, f);
        HoldersAdd(s.balances, Credit(s, e, (id, x.recipient), x.amount, f).value.0.balances, id, x.recipient);
      }
    } else {
      ParkCosts(s, UnitMint, id, minter, minter, x.recipient, x.amount, t);
    }
  }

  lemma CreditNeeds(s: State, e: Edition, k: BalanceKey, n: nat, f: Funding)
    requires f.PaidBy? && Credit(s, e, k, n, f).Ok?
    ensures k in s.balances || f.tokenDeposit <= Wallet(s.coins, f.payer)
  {
    hide WriteBalance;
  }

  lemma {:induction false} MintEachCosts(s: State, e: Edition, id: EditionId, k: BalanceKey, minter: Address,
                                         entries: seq<Entry>, tokenDeposit: nat, inboxFee: nat)
    requires Near(s, id, e, k, LEVEL) && Fits(e, TotalOf(entries)) && Small(s.balances) && SomeEach(entries)
    ensures
      var cost := BatchCost(Holders(s.balances, id), entries, tokenDeposit, inboxFee);
      var r := MintEach(s, e, id, minter, entries, tokenDeposit, inboxFee);
      && (r.Ok? <==> SlotsFree(entries) && cost <= Wallet(s.coins, minter))
      && (r.Ok? ==> Pays(s.coins, r.value.0.coins, minter, 0 - cost, ParkedFees(entries, inboxFee)))
    decreases |entries|
  {
    hide Near, MintUnitsTo, Fits, Pays, Holders, Small;
    if entries == [] {
      PaysNobody(s.coins, minter);
    } else {
      var x, rest := entries[0], entries[1..];
      var t := Terms(tokenDeposit, inboxFee, x.slotFree);
      assert entries == [x] + rest;
      MintToCosts(s, e, id, k, minter, x, t, TotalOf(rest));
      MintToKeeps(s, e, id, k, minter, x.recipient, x.amount, x.direct, t, TotalOf(rest));
      var r := MintUnitsTo(s, e, id, minter, x.recipient, x.amount, x.direct, t);
      if r.Ok? {
        var (s1, e1) := r.value;
        MintEachCosts(s1, e1, id, k, minter, rest, tokenDeposit, inboxFee);
        var cost := if x.direct then (if x.recipient in Holders(s.balances, id) then 0 else tokenDeposit) else inboxFee + tokenDeposit;
        assert Wallet(s1.coins, minter) == Wallet(s.coins, minter) - cost by { PaysWho(s.coins, s1.coins, minter, 0 - cost); }
        assert Holders(s.balances, id) + {} == Holders(s.balances, id);
        var r2 := MintEach(s1, e1, id, minter, rest, tokenDeposit, inboxFee);
        if r2.Ok? {
          PaysTwice(s.coins, s1.coins, r2.value.0.coins, minter, 0 - cost,
                    0 - BatchCost(Holders(s1.balances, id), rest, tokenDeposit, inboxFee),
                    if x.direct then 0 else inboxFee, ParkedFees(rest, inboxFee));
        }
      }
    }
  }

  lemma PaysWho(c: Coins, c1: Coins, who: Address, n: int)
    requires exists burned :: Pays(c, c1, who, n, burned)
    ensures Wallet(c1, who) == Wallet(c, who) + n
  {}

  // ----- the tables -----

  predicate FreeOf(s: State, k: BalanceKey, n: nat) { k in s.balances && n <= s.balances[k].amount }

  /** The deposit for `to`'s record can be collected from `payer`, who may just have
      been paid out for the record at `from`. */
  predicate Affords(s: State, payer: Address, from: BalanceKey, n: nat, to: BalanceKey, deposit: nat) {
    HasRecord(s.balances, from, n, to) || deposit <= Wallet(s.coins, payer) + Gets(payer, from.1, Payout(s, from, n))
  }

  /** When a message is accepted. */
  ghost predicate Admits(s: State, op: Op) {
    match op
    case CreateEdition(id, cap, creator, fee) => id !in s.editions && cap <= HARD_MAX && fee <= Wallet(s.coins, creator)
    case MintUnits(id, minter, entries, deposit, fee) =>
      && id in s.editions && SomeEach(entries) && Fits(s.editions[id], TotalOf(entries)) && SlotsFree(entries)
      && BatchCost(Holders(s.balances, id), entries, deposit, fee) <= Wallet(s.coins, minter)
    case TransferUnits(id, sender, holder, to, n, direct, terms) =>
      && 0 < n && FreeOf(s, (id, holder), n)
      && if direct then Affords(s, sender, (id, holder), n, (id, to), terms.tokenDeposit)
         else terms.slotFree && terms.inboxFee + terms.tokenDeposit <= Wallet(s.coins, sender)
    case ListUnits(id, seller, n) => 0 < n && FreeOf(s, (id, seller), n)
    case UpdateUnitListing(lid, n) =>
      && lid in s.listings && 0 < n
      && var l := s.listings[lid]; n <= l.quantity || FreeOf(s, (l.edition, l.seller), n - l.quantity)
    case DelistUnits(lid) => lid in s.listings
    case BuyUnits(lid, buyer, n, deposit) =>
      && lid in s.listings && 0 < n <= s.listings[lid].quantity
      && var l := s.listings[lid]; Affords(s, buyer, (l.edition, l.seller), n, (l.edition, buyer), deposit)
    case BurnUnits(id, holder, n) => 0 < n && FreeOf(s, (id, holder), n)
    case FundEdition(id, funder, n) =>
      && id in s.editions && 0 < s.editions[id].supply
      && s.editions[id].supply <= 1_000_000_000_000_000_000 * n && n <= Wallet(s.coins, funder)
    case ClaimRewards(id, holder, _) => (id, holder) in s.balances
    case SetMaxSupply(id, cap) =>
      && id in s.editions && 0 < cap <= HARD_MAX
      && var e := s.editions[id]; (e.maxSupply == 0 || cap < e.maxSupply) && e.supply + e.burned + e.reserved <= cap
    case Resolve(pid, _) => pid in s.pending
  }

  /** What a message that is accepted pays `a`, or with a minus sign takes from it. */
  ghost function WalletGain(s: State, op: Op, a: Address): int {
    match op
    case CreateEdition(_, _, creator, fee) => Gets(a, creator, 0 - fee)
    case MintUnits(id, minter, entries, deposit, fee) => Gets(a, minter, 0 - BatchCost(Holders(s.balances, id), entries, deposit, fee))
    case TransferUnits(id, sender, holder, to, n, direct, terms) =>
      if direct then Traded(s, a, (id, holder), n, sender, (id, to), terms.tokenDeposit)
      else Gets(a, sender, 0 - (terms.inboxFee + terms.tokenDeposit))
    case BuyUnits(lid, buyer, n, deposit) =>
      if lid !in s.listings then 0
      else var l := s.listings[lid]; Traded(s, a, (l.edition, l.seller), n, buyer, (l.edition, buyer), deposit)
    case BurnUnits(id, holder, n) => Gets(a, holder, Payout(s, (id, holder), n))
    case FundEdition(_, funder, n) => Gets(a, funder, 0 - n)
    case ClaimRewards(id, holder, payee) =>
      if (id, holder) in s.balances && id in s.editions
      then Gets(a, payee, Claimable(s.balances[(id, holder)], s.editions[id].rewardPerUnit)) else 0
    case Resolve(pid, outcome) => if pid in s.pending then ItemPays(s, a, s.pending[pid], outcome) else 0
    case _ => 0
  }

  /** Units from one record to another: the first pays out if it empties, the payer
      puts down the deposit if the second is new. */
  function Traded(s: State, a: Address, from: BalanceKey, n: nat, payer: Address, to: BalanceKey, deposit: nat): int {
    Gets(a, from.1, Payout(s, from, n)) + Gets(a, payer, if HasRecord(s.balances, from, n, to) then 0 else 0 - deposit)
  }

  /** A resolved item gives its deposit back to its sender, unless it became the
      recipient's new record's. */
  function ItemPays(s: State, a: Address, p: Pending, outcome: Outcome): int {
    var from, to := (p.edition, p.from), (p.edition, p.to);
    if outcome != Accepted then Gets(a, p.from, p.deposit)
    else if p.kind == UnitMint then Gets(a, p.from, if to in s.balances then p.deposit else 0)
    else Gets(a, p.from, Payout(s, from, p.amount)) + Gets(a, p.from, if HasRecord(s.balances, from, p.amount, to) then p.deposit else 0)
  }

  /** The coins it burns: creation and inbox fees. */
  function Burns(op: Op): nat {
    match op
    case CreateEdition(_, _, _, fee) => fee
    case MintUnits(_, _, entries, _, fee) => ParkedFees(entries, fee)
    case TransferUnits(_, _, _, _, _, direct, terms) => if direct then 0 else terms.inboxFee
    case _ => 0
  }

  ghost predicate WalletsGain(s: State, op: Op, t: State) {
    && t.coins.burnt == s.coins.burnt + Burns(op)
    && forall a: Address :: Wallet(t.coins, a) == Wallet(s.coins, a) + WalletGain(s, op, a)
  }

  // ----- a debit and a credit -----

  lemma DebitNeeds(s: State, e: Edition, k: BalanceKey, n: nat, fromLocked: bool)
    requires Debit(s, e, k, n, fromLocked).Ok?
    ensures k in s.balances && n <= if fromLocked then s.balances[k].locked else s.balances[k].amount
  {
    hide WriteBalance, Settle;
  }

  lemma DebitFits(s: State, id: EditionId, from: Address, n: nat, fromLocked: bool)
    requires Inv(s) && id in s.editions
    ensures
      var r, k := Debit(s, s.editions[id], (id, from), n, fromLocked), (id, from);
      && (r.Ok? <==> k in s.balances && n <= if fromLocked then s.balances[k].locked else s.balances[k].amount)
      && (r.Ok? ==>
            && Near(r.value.0, id, r.value.1, k, Slack(0 - n, if fromLocked then 0 - n else 0, 0, 0))
            && r.value.1.supply == s.editions[id].supply <= HARD_MAX)
  {
    hide Near, Inv, Debit;
    var k, e := (id, from), s.editions[id];
    InvFacts(s);
    Enter(s, id, k);
    DebitKeeps(s, id, e, from, LEVEL, n, fromLocked);
    DebitFrame(s, e, k, n, fromLocked);
    if Debit(s, e, k, n, fromLocked).Ok? { DebitNeeds(s, e, k, n, fromLocked); }
  }

  /** The two halves of a trade: when they go through, and what they cost. */
  lemma TradeCosts(s: State, id: EditionId, from: Address, n: nat, fromLocked: bool, to: Address, payer: Address, deposit: nat)
    requires Inv(s) && id in s.editions && 0 < n && Debit(s, s.editions[id], (id, from), n, fromLocked).Ok?
    ensures
      var (s1, e1) := Debit(s, s.editions[id], (id, from), n, fromLocked).value;
      var r := Credit(s1, e1, (id, to), n, PaidBy(payer, deposit));
      && (r.Ok? <==> Affords(s, payer, (id, from), n, (id, to), deposit))
      && (r.Ok? ==> r.value.0.coins.burnt == s.coins.burnt
                    && forall a: Address :: Wallet(r.value.0.coins, a) == Wallet(s.coins, a) + Traded(s, a, (id, from), n, payer, (id, to), deposit))
  {
    hide Near, Inv, Debit, Credit, Pays, Payout, Empties, Wallet;
    var k, e, f := (id, from), s.editions[id], PaidBy(payer, deposit);
    LedgerRewards.InvFine(s);
    DebitFits(s, id, from, n, fromLocked);
    var (s1, e1) := Debit(s, e, k, n, fromLocked).value;
    DebitPaysOut(s, id, from, n, fromLocked);
    CreditKeeps(s1, id, e1, k, Slack(0 - n, if fromLocked then 0 - n else 0, 0, 0), to, n, f);
    AfterDebit(s.balances, s1.balances, k, n, (id, to));
    WalletAfter(s.coins, s1.coins, from, Payout(s, k, n), payer);
    var r := Credit(s1, e1, (id, to), n, f);
    if r.Ok? {
      CreditNeeds(s1, e1, (id, to), n, f);
      CreditCosts(s1, e1, (id, to), n, f);
      BothPay(s.coins, s1.coins, r.value.0.coins, from, Payout(s, k, n), payer, CreditGain((id, to) in s1.balances, f));
    }
  }

  /** The debit of a trade, in the terms of the table. */
  lemma DebitPaysOut(s: State, id: EditionId, from: Address, n: nat, fromLocked: bool)
    requires Small(s.balances) && id in s.editions && Debit(s, s.editions[id], (id, from), n, fromLocked).Ok?
    ensures
      var t, k := Debit(s, s.editions[id], (id, from), n, fromLocked).value.0, (id, from);
      && Pays(s.coins, t.coins, from, Payout(s, k, n), 0) && Small(t.balances)
      && t.balances.Keys == s.balances.Keys - if Empties(s.balances, k, n) then {k} else {}
  {
    hide Debit, Pays, Claimable;
    DebitCosts(s, s.editions[id], (id, from), n, fromLocked);
    DebitShifts(s, s.editions[id], (id, from), n, fromLocked);
  }

  lemma AfterDebit(m: Balances, m1: Balances, k: BalanceKey, n: nat, to: BalanceKey)
    requires m1.Keys == m.Keys - if Empties(m, k, n) then {k} else {}
    ensures to in m1 <==> HasRecord(m, k, n, to)
  {}

  lemma WalletAfter(c: Coins, c1: Coins, who: Address, n: int, a: Address)
    requires Pays(c, c1, who, n, 0)
    ensures Wallet(c1, a) == Wallet(c, a) + Gets(a, who, n)
  {}

  lemma BothPay(c: Coins, c1: Coins, c2: Coins, a: Address, m: int, b: Address, n: int)
    requires Pays(c, c1, a, m, 0) && Pays(c1, c2, b, n, 0)
    ensures c2.burnt == c.burnt && forall j: Address :: Wallet(c2, j) == Wallet(c, j) + Gets(j, a, m) + Gets(j, b, n)
  {
    hide Wallet, Gets;
  }

  // ----- each message -----

  lemma ApartFromEdition(s: State, k: BalanceKey)
    requires Inv(s) && k in s.balances
    ensures k.0 in s.editions && 0 < s.balances[k].amount + s.balances[k].locked
  {}

  lemma CreateCosts(s: State, op: Op)
    requires op.CreateEdition?
    ensures ApplyCreate(s, op).Ok? <==> Admits(s, op)
    ensures ApplyCreate(s, op).Ok? ==> WalletsGain(s, op, ApplyCreate(s, op).value)
  {
    hide BurnFrom;
    BurnPays(s.coins, op.creator, op.fee);
  }

  lemma FundCosts(s: State, op: Op)
    requires op.FundEdition?
    ensures ApplyFund(s, op).Ok? <==> Admits(s, op)
    ensures ApplyFund(s, op).Ok? ==> WalletsGain(s, op, ApplyFund(s, op).value)
  {
    hide Collect;
    CollectPays(s.coins, op.funder, op.amount);
    if op.id in s.editions && 0 < s.editions[op.id].supply {
      DeltaNonZero(op.amount, s.editions[op.id].supply);
      if ApplyFund(s, op).Ok? {
        SameMoney(s.coins, Collect(s.coins, op.funder, op.amount).value, ApplyFund(s, op).value.coins, op.funder, 0 - op.amount, 0);
      }
    }
  }

  lemma DeltaNonZero(n: nat, supply: nat)
    requires 0 < supply
    ensures RewardPerUnitDelta(n, supply) == 0 <==> Scaled(n) < supply
  {
    NoWholePart(Scaled(n), supply);
  }

  lemma NoWholePart(x: nat, y: nat)
    requires 0 < y
    ensures x / y == 0 <==> x < y
  {
    if x / y == 0 {
      assert x == y * (x / y) + x % y;
      assert y * (x / y) == 0;
    }
  }

  lemma SetMaxCosts(s: State, op: Op)
    requires Inv(s) && op.SetMaxSupply?
    ensures ApplySetMaxSupply(s, op).Ok? <==> Admits(s, op)
    ensures ApplySetMaxSupply(s, op).Ok? ==> WalletsGain(s, op, ApplySetMaxSupply(s, op).value)
  {
    InvFacts(s);
    hide Inv;
    if op.id in s.editions {
      var e := s.editions[op.id];
      assert IssuedUnits(e) == e.supply + e.burned + e.reserved;
    }
  }

  lemma BurnCosts(s: State, op: Op)
    requires Inv(s) && op.BurnUnits?
    ensures ApplyBurn(s, op).Ok? <==> Admits(s, op)
    ensures ApplyBurn(s, op).Ok? ==> WalletsGain(s, op, ApplyBurn(s, op).value)
  {
    hide Inv, Near, Debit, Pays, Payout;
    LedgerRewards.InvFine(s);
    var k := (op.id, op.holder);
    if k in s.balances { ApartFromEdition(s, k); }
    if op.id in s.editions && 0 < op.amount {
      DebitFits(s, op.id, op.holder, op.amount, false);
      var r := Debit(s, s.editions[op.id], k, op.amount, false);
      if r.Ok? {
        SupplyCovers(s, k);
        BurnFits(s, op.id);
        DebitPaysOut(s, op.id, op.holder, op.amount, false);
        DebitFrame(s, s.editions[op.id], k, op.amount, false);
        WalletsOf(s.coins, r.value.0.coins, op.holder, Payout(s, k, op.amount));
      }
    }
  }

  lemma BurnFits(s: State, id: EditionId)
    requires Inv(s) && id in s.editions
    ensures s.editions[id].supply + s.editions[id].burned <= HARD_MAX
  {
    InvFacts(s);
    hide Inv;
  }

  lemma WalletsOf(c: Coins, c1: Coins, who: Address, n: int)
    requires Pays(c, c1, who, n, 0)
    ensures c1.burnt == c.burnt && forall a: Address :: Wallet(c1, a) == Wallet(c, a) + Gets(a, who, n)
  {}

  lemma TransferCosts(s: State, op: Op)
    requires Inv(s) && op.TransferUnits?
    ensures ApplyTransfer(s, op).Ok? <==> Admits(s, op)
    ensures ApplyTransfer(s, op).Ok? ==> WalletsGain(s, op, ApplyTransfer(s, op).value)
  {
    hide Inv, Near, Debit, Credit, LockUnits, ParkUnits, Affords, Traded, Wallet;
    var k := (op.id, op.holder);
    if k in s.balances { ApartFromEdition(s, k); }
    if op.id in s.editions && 0 < op.amount {
      if op.direct { DirectCosts(s, op); } else { ParkedCosts(s, op); }
    }
  }

  lemma DirectCosts(s: State, op: Op)
    requires Inv(s) && op.TransferUnits? && op.direct && op.id in s.editions && 0 < op.amount
    ensures ApplyTransfer(s, op).Ok? <==>
            (FreeOf(s, (op.id, op.holder), op.amount)
             && Affords(s, op.sender, (op.id, op.holder), op.amount, (op.id, op.to), op.terms.tokenDeposit))
    ensures ApplyTransfer(s, op).Ok? ==> WalletsGain(s, op, ApplyTransfer(s, op).value)
  {
    hide Inv, Near, Debit, Credit, Affords, Traded, Wallet;
    DebitFits(s, op.id, op.holder, op.amount, false);
    if Debit(s, s.editions[op.id], (op.id, op.holder), op.amount, false).Ok? {
      TradeCosts(s, op.id, op.holder, op.amount, false, op.to, op.sender, op.terms.tokenDeposit);
    }
  }

  lemma ParkedCosts(s: State, op: Op)
    requires Inv(s) && op.TransferUnits? && !op.direct && op.id in s.editions && 0 < op.amount
    ensures ApplyTransfer(s, op).Ok? <==>
            (FreeOf(s, (op.id, op.holder), op.amount)
             && op.terms.slotFree && op.terms.inboxFee + op.terms.tokenDeposit <= Wallet(s.coins, op.sender))
    ensures ApplyTransfer(s, op).Ok? ==> WalletsGain(s, op, ApplyTransfer(s, op).value)
  {
    hide Inv, Near, LockUnits, ParkUnits, Wallet;
    LockFits(s, op.id, op.holder, op.amount);
    var r := LockUnits(s, s.editions[op.id], (op.id, op.holder), op.amount, false);
    if r.Ok? {
      ParkCosts(r.value.0, UnitTransfer, op.id, op.sender, op.holder, op.to, op.amount, op.terms);
    }
  }

  /** Locking succeeds exactly out of free units, and costs nothing. */
  lemma LockFits(s: State, id: EditionId, a: Address, n: nat)
    requires Inv(s) && id in s.editions
    ensures
      var r := LockUnits(s, s.editions[id], (id, a), n, false);
      && (r.Ok? <==> FreeOf(s, (id, a), n))
      && (r.Ok? ==> r.value.0.coins == s.coins)
  {
    hide Inv, Near, LockUnits;
    LedgerRewards.InvFine(s);
    Enter(s, id, (id, a));
    LockKeeps(s, id, s.editions[id], a, LEVEL, n, false);
    if LockUnits(s, s.editions[id], (id, a), n, false).Ok? {
      LockNeeds(s, s.editions[id], (id, a), n, false);
      LockCosts(s, s.editions[id], (id, a), n, false, a);
    }
  }

  lemma LockNeeds(s: State, e: Edition, k: BalanceKey, n: nat, unlock: bool)
    requires LockUnits(s, e, k, n, unlock).Ok?
    ensures k in s.balances && n <= if unlock then s.balances[k].locked else s.balances[k].amount
  {
    hide WriteBalance;
  }

  /** Listed units are locked in the seller's record. */
  lemma ListedCovers(s: State, lid: nat)
    requires Inv(s) && lid in s.listings
    ensures var l := s.listings[lid];
      l.edition in s.editions && (l.edition, l.seller) in s.balances && 0 < l.quantity <= s.balances[(l.edition, l.seller)].locked
  {
    var l := s.listings[lid];
    var k := (l.edition, l.seller);
    SumBounds(s.listings, ListedBy(k), lid);
    SumSign(s.pending, OutgoingOf(k));
    assert RecordAt(s.balances, k).locked == Sum(s.listings, ListedBy(k)) + Sum(s.pending, OutgoingOf(k));
  }

  lemma UnlockFits(s: State, id: EditionId, a: Address, n: nat)
    requires Inv(s) && id in s.editions && (id, a) in s.balances && n <= s.balances[(id, a)].locked
    ensures var r := LockUnits(s, s.editions[id], (id, a), n, true); r.Ok? && r.value.0.coins == s.coins
  {
    hide Inv, Near, LockUnits;
    LedgerRewards.InvFine(s);
    Enter(s, id, (id, a));
    LockKeeps(s, id, s.editions[id], a, LEVEL, n, true);
    LockCosts(s, s.editions[id], (id, a), n, true, a);
  }

  lemma ListCosts(s: State, op: Op)
    requires Inv(s) && op.ListUnits?
    ensures ApplyList(s, op).Ok? <==> Admits(s, op)
    ensures ApplyList(s, op).Ok? ==> WalletsGain(s, op, ApplyList(s, op).value)
  {
    hide Inv, LockUnits;
    var k := (op.id, op.seller);
    if k in s.balances { ApartFromEdition(s, k); }
    if op.id in s.editions { LockFits(s, op.id, op.seller, op.amount); }
  }

  lemma UpdateCosts(s: State, op: Op)
    requires Inv(s) && op.UpdateUnitListing?
    ensures ApplyUpdateListing(s, op).Ok? <==> Admits(s, op)
    ensures ApplyUpdateListing(s, op).Ok? ==> WalletsGain(s, op, ApplyUpdateListing(s, op).value)
  {
    hide Inv, LockUnits;
    if op.listing in s.listings {
      var l := s.listings[op.listing];
      ListedCovers(s, op.listing);
      if op.amount > l.quantity { LockFits(s, l.edition, l.seller, op.amount - l.quantity); }
      if op.amount < l.quantity { UnlockFits(s, l.edition, l.seller, l.quantity - op.amount); }
    }
  }

  lemma DelistCosts(s: State, op: Op)
    requires Inv(s) && op.DelistUnits?
    ensures Apply(s, op).Ok? <==> Admits(s, op)
    ensures Apply(s, op).Ok? ==> WalletsGain(s, op, Apply(s, op).value)
  {
    hide Inv, LockUnits;
    LedgerRewards.InvFine(s);
    if op.listing in s.listings {
      RemoveListingSucceeds(s, op.listing);
      ListedCovers(s, op.listing);
      var l := s.listings[op.listing];
      LockCosts(s.(listings := s.listings - {op.listing}), s.editions[l.edition], (l.edition, l.seller), l.quantity, true, l.seller);
    }
  }

  lemma BuyCosts(s: State, op: Op)
    requires Inv(s) && op.BuyUnits?
    ensures ApplyBuy(s, op).Ok? <==> Admits(s, op)
    ensures ApplyBuy(s, op).Ok? ==> WalletsGain(s, op, ApplyBuy(s, op).value)
  {
    hide Inv, Debit, Credit, LockUnits, Affords, Traded, Wallet;
    if op.listing in s.listings && 0 < op.amount <= s.listings[op.listing].quantity {
      var l := s.listings[op.listing];
      ListedCovers(s, op.listing);
      DebitFits(s, l.edition, l.seller, op.amount, true);
      TradeCosts(s, l.edition, l.seller, op.amount, true, op.buyer, op.buyer, op.tokenDeposit);
    }
  }

  // ----- claiming -----

  /** The pot covers any record's claim. */
  lemma ClaimCovered(s: State, k: BalanceKey)
    requires Inv(s) && k in s.balances
    ensures k.0 in s.editions && Claimable(s.balances[k], s.editions[k.0].rewardPerUnit) <= s.coins.pot
  {
    var e := s.editions[k.0];
    Enter(s, k.0, k);
    PoolCovers(s, k.0, e, k, LEVEL);
    SettledBooks(s, k.0);
    LedgerRewards.InvFine(s);
    SupplyCovers(s, k);
    hide Inv, Near, SettledOn, Claimable;
    SettleRounds(s.balances[k], e);
    ClaimsNonNegative(s.balances, s.editions, k.0);
    SumBounds(s.balances, ClaimIn(k.0, e.rewardPerUnit), k);
    SumSign(s.balances, DepositOf());
    SumSign(s.pending, EscrowOf());
  }

  lemma SettledBooks(s: State, id: EditionId)
    requires Inv(s) && id in s.editions
    ensures Records(s.balances, s.editions) && Sum(s.balances, ClaimIn(id, s.editions[id].rewardPerUnit)) <= Scaled(Pool(s.coins, id))
    ensures s.coins.pot == Sum(s.balances, DepositOf()) + Sum(s.pending, EscrowOf()) + Sum(s.coins.pool, PoolOf())
  {
    assert SettledOn(s.editions[id], s.balances, s.pending, Pool(s.coins, id), id);
  }

  lemma ClaimCosts(s: State, op: Op)
    requires Inv(s) && op.ClaimRewards?
    ensures ApplyClaim(s, op).Ok? <==> Admits(s, op)
    ensures ApplyClaim(s, op).Ok? ==> WalletsGain(s, op, ApplyClaim(s, op).value)
  {
    hide Inv, Claimable, Pays;
    LedgerRewards.InvFine(s);
    var k := (op.id, op.holder);
    if k in s.balances {
      ClaimCovered(s, k);
      SupplyCovers(s, k);
      var b := Settle(s.balances[k], s.editions[op.id]);
      WriteLive(s, s.editions[op.id], k, b.(unclaimed := 0));
      RewardPays(s.coins, k, op.payee, b.unclaimed);
      WalletsOf(s.coins, PayReward(s.coins, k, op.payee, b.unclaimed).value, op.payee, b.unclaimed);
    }
  }

  // ----- resolving -----

  lemma ItemFacts(s: State, pid: nat)
    requires Inv(s) && pid in s.pending
    ensures var p := s.pending[pid]; p.edition in s.editions && 0 < p.amount && Small(s.balances)
    ensures forall k <- s.balances :: 0 < s.balances[k].amount + s.balances[k].locked
  {
    LedgerRewards.InvFine(s);
  }

  lemma SmallRecords(s: State)
    requires Inv(s)
    ensures Small(s.balances)
  {
    LedgerRewards.InvFine(s);
  }

  lemma MintItemCosts(s: State, op: Op)
    requires Inv(s) && op.Resolve? && op.item in s.pending && s.pending[op.item].kind == UnitMint && Apply(s, op).Ok?
    ensures WalletsGain(s, op, Apply(s, op).value)
  {
    hide Inv, Credit, Refund, Pays, Debit, LockUnits;
    ItemFacts(s, op.item);
    var p, s1 := s.pending[op.item], s.(pending := s.pending - {op.item});
    var e0 := s.editions[p.edition];
    var e := e0.(reserved := Wrap(e0.reserved - p.amount));
    if op.outcome == Accepted {
      var e1, f := e.(supply := AddUnits(e.supply, p.amount).value), Escrowed(p.deposit, p.from);
      CreditCosts(s1, e1, (p.edition, p.to), p.amount, f);
      WalletsOf(s.coins, Credit(s1, e1, (p.edition, p.to), p.amount, f).value.0.coins, p.from,
                CreditGain((p.edition, p.to) in s.balances, f));
    } else {
      RefundsTo(s.coins, p.from, p.deposit);
      WalletsOf(s.coins, Refund(s.coins, p.from, p.deposit).value, p.from, p.deposit);
    }
  }

  lemma AcceptedCosts(s: State, op: Op)
    requires Inv(s) && op.Resolve? && op.item in s.pending && s.pending[op.item].kind == UnitTransfer && Apply(s, op).Ok?
    requires op.outcome == Accepted
    ensures WalletsGain(s, op, Apply(s, op).value)
  {
    hide Inv, Credit, Pays, Debit, LockUnits, Empties, Wallet;
    ItemFacts(s, op.item);
    var p, s1 := s.pending[op.item], s.(pending := s.pending - {op.item});
    var from, to, f := (p.edition, p.from), (p.edition, p.to), Escrowed(p.deposit, p.from);
    DebitPaysOut(s1, p.edition, p.from, p.amount, true);
    var (s2, e2) := Debit(s1, s.editions[p.edition], from, p.amount, true).value;
    assert Payout(s1, from, p.amount) == Payout(s, from, p.amount);
    AfterDebit(s.balances, s2.balances, from, p.amount, to);
    CreditCosts(s2, e2, to, p.amount, f);
    BothPay(s.coins, s2.coins, Credit(s2, e2, to, p.amount, f).value.0.coins, p.from, Payout(s, from, p.amount),
            p.from, CreditGain(to in s2.balances, f));
  }

  lemma RefusedCosts(s: State, op: Op)
    requires Inv(s) && op.Resolve? && op.item in s.pending && s.pending[op.item].kind == UnitTransfer && Apply(s, op).Ok?
    requires op.outcome != Accepted
    ensures WalletsGain(s, op, Apply(s, op).value)
  {
    hide Inv, Credit, Pays, Debit, LockUnits, Refund;
    ItemFacts(s, op.item);
    var p, s1 := s.pending[op.item], s.(pending := s.pending - {op.item});
    var k, e := (p.edition, p.from), s.editions[p.edition];
    LockNeeds(s1, e, k, p.amount, true);
    LockCosts(s1, e, k, p.amount, true, p.from);
    RefundsTo(s.coins, p.from, p.deposit);
    WalletsOf(s.coins, Refund(s.coins, p.from, p.deposit).value, p.from, p.deposit);
  }

  lemma ResolveCosts(s: State, op: Op)
    requires Inv(s) && op.Resolve?
    ensures Apply(s, op).Ok? <==> Admits(s, op)
    ensures Apply(s, op).Ok? ==> WalletsGain(s, op, Apply(s, op).value)
  {
    hide Inv, ResolvePendingUnits, WalletsGain;
    if op.item in s.pending {
      ResolveSucceeds(s, op.item, op.outcome);
      if s.pending[op.item].kind == UnitMint {
        MintItemCosts(s, op);
      } else if op.outcome == Accepted {
        AcceptedCosts(s, op);
      } else {
        RefusedCosts(s, op);
      }
    } else {
      assert ResolvePendingUnits(s, op.item, op.outcome).Err? by { NoItem(s, op.item, op.outcome); }
    }
  }

  lemma NoItem(s: State, pid: nat, outcome: Outcome)
    requires pid !in s.pending
    ensures ResolvePendingUnits(s, pid, outcome).Err?
  {}

  // ----- a batch -----

  lemma {:induction false} BatchTotalIff(entries: seq<Entry>, sofar: nat)
    requires sofar < TWO64 && forall i :: 0 <= i < |entries| ==> entries[i].amount < TWO64
    ensures BatchTotal(entries, sofar).Ok? <==> SomeEach(entries) && sofar + TotalOf(entries) < TWO64
  {
    if entries != [] {
      var x, rest := entries[0], entries[1..];
      assert entries == [x] + rest;
      var total := Wrap(sofar + x.amount);
      if sofar + x.amount < TWO64 {
        assert total == sofar + x.amount;
        BatchTotalIff(rest, total);
      } else {
        assert total == sofar + x.amount - TWO64;
      }
    }
  }

  lemma {:induction false} TotalAtLeast(entries: seq<Entry>, i: nat)
    requires i < |entries|
    ensures entries[i].amount <= TotalOf(entries)
  {
    if i > 0 { TotalAtLeast(entries[1..], i - 1); }
  }

  /** The batch's own checks: none empty, and the total fits the caps. */
  lemma BatchFits(e: Edition, entries: seq<Entry>)
    requires Capped(e) && forall i :: 0 <= i < |entries| ==> entries[i].amount < TWO64
    ensures (BatchTotal(entries, 0).Ok? && CheckUnitSupply(e, BatchTotal(entries, 0).value).Ok?)
            <==> (SomeEach(entries) && Fits(e, TotalOf(entries)))
  {
    BatchTotalIff(entries, 0);
    assert IssuedUnits(e) == e.supply + e.burned + e.reserved;
    if BatchTotal(entries, 0).Ok? { BatchTotalExact(entries, 0); }
  }

  lemma MintCosts(s: State, op: Op)
    requires Inv(s) && op.MintUnits?
    ensures ApplyMint(s, op).Ok? <==> Admits(s, op)
    ensures ApplyMint(s, op).Ok? ==> WalletsGain(s, op, ApplyMint(s, op).value)
  {
    hide Inv, Near, MintEach, Pays, Fits, Holders, BatchTotal, SomeEach, SlotsFree, CheckUnitSupply, Small, Capped, Wallet;
    InvFacts(s);
    LedgerRewards.InvFine(s);
    SmallRecords(s);
    if op.id in s.editions {
      var id, k, e := op.id, (op.id, op.minter), s.editions[op.id];
      if i :| 0 <= i < |op.entries| && op.entries[i].amount >= TWO64 {
        TotalAtLeast(op.entries, i);
        TooMany(e, TotalOf(op.entries));
      } else {
        BatchFits(e, op.entries);
        if SomeEach(op.entries) && Fits(e, TotalOf(op.entries)) {
          Enter(s, id, k);
          MintEachCosts(s, e, id, k, op.minter, op.entries, op.tokenDeposit, op.inboxFee);
          var r := MintEach(s, e, id, op.minter, op.entries, op.tokenDeposit, op.inboxFee);
          if r.Ok? {
            MintedWallets(s.coins, r.value.0.coins, op.minter,
                          0 - BatchCost(Holders(s.balances, id), op.entries, op.tokenDeposit, op.inboxFee), ParkedFees(op.entries, op.inboxFee));
          }
        }
      }
    }
  }

  lemma TooMany(e: Edition, n: nat)
    requires n >= TWO64
    ensures !Fits(e, n)
  {}

  lemma MintedWallets(c: Coins, c1: Coins, who: Address, n: int, burned: nat)
    requires Pays(c, c1, who, n, burned)
    ensures c1.burnt == c.burnt + burned && forall a: Address :: Wallet(c1, a) == Wallet(c, a) + Gets(a, who, n)
  {}

  // ----- every message -----

  /** A message is accepted exactly when the table says; what it then pays each address,
      takes from it and burns is exactly what the table says. */
  lemma AcceptedIff(s: State, op: Op)
    requires Inv(s)
    ensures Apply(s, op).Ok? <==> Admits(s, op)
    ensures Apply(s, op).Ok? ==> WalletsGain(s, op, Apply(s, op).value)
  {
    hide Inv, Admits, WalletsGain, ApplyMint, ApplyTransfer, ApplyBuy, ApplyBurn, ApplyList, ApplyUpdateListing, ApplyCreate, ApplyFund,
         ApplyClaim, ApplySetMaxSupply, ResolvePendingUnits, RemoveUnitListing;
    match op {
      case CreateEdition(_, _, _, _) => CreateCosts(s, op);
      case MintUnits(_, _, _, _, _) => MintCosts(s, op);
      case TransferUnits(_, _, _, _, _, _, _) => TransferCosts(s, op);
      case ListUnits(_, _, _) => ListCosts(s, op);
      case UpdateUnitListing(_, _) => UpdateCosts(s, op);
      case DelistUnits(_) => DelistCosts(s, op);
      case BuyUnits(_, _, _, _) => BuyCosts(s, op);
      case BurnUnits(_, _, _) => BurnCosts(s, op);
      case FundEdition(_, _, _) => FundCosts(s, op);
      case ClaimRewards(_, _, _) => ClaimCosts(s, op);
      case SetMaxSupply(_, _) => SetMaxCosts(s, op);
      case Resolve(_, _) => ResolveCosts(s, op);
    }
  }
}
