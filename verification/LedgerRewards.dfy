/** Where the money goes: coins are only moved or burned, and rewards follow
    the units held when they were paid in.

    A record's exact entitlement counts what its key was ever paid plus what it
    is owed, in 10^-18 coin. Between funding payments no message raises it, and
    one message loses at most the fraction of a coin that settling rounds off. */
module LedgerRewards {
  import opened Ledger
  import opened MapSums
  import opened LedgerInvariant
  import opened LedgerSteps
  import opened LedgerMessages

  function WalletOf(): (Address, nat) -> int { (a: Address, n: nat) => n }

  ghost function Money(c: Coins): int { Sum(c.wallets, WalletOf()) + c.pot + c.burnt }

  function Rate(s: State, k: BalanceKey): nat { if k.0 in s.editions then s.editions[k.0].rewardPerUnit else 0 }

  function Owed(s: State, k: BalanceKey): int {
    if k in s.balances then ExactClaim(s.balances[k], Rate(s, k)) else 0
  }

  function Entitled(s: State, k: BalanceKey): int { Scaled(Rewarded(s.coins, k)) + Owed(s, k) }

  /** No record, or one settled at the current rate. */
  predicate Fresh(s: State, k: BalanceKey) { k in s.balances ==> s.balances[k].rewardDebt == Rate(s, k) }

  predicate RecordFine(b: Balance, rate: nat) {
    b.amount <= HARD_MAX && b.locked <= HARD_MAX && 0 < b.amount + b.locked && b.rewardDebt <= rate
  }

  ghost predicate Fine(s: State) {
    forall k :: k in s.balances ==> k.0 in s.editions && RecordFine(s.balances[k], Rate(s, k))
  }

  ghost predicate Drift(s: State, t: State, k: BalanceKey) {
    && Entitled(t, k) <= Entitled(s, k) < Entitled(t, k) + Scaled(1)
    && (Fresh(s, k) ==> Entitled(t, k) == Entitled(s, k) && Fresh(t, k))
    && (Entitled(t, k) != Entitled(s, k) ==> Fresh(t, k))
  }

  ghost predicate Moves(s: State, t: State) {
    && Fine(t)
    && s.editions.Keys <= t.editions.Keys
    && (forall k: BalanceKey :: Rate(t, k) == Rate(s, k) && Drift(s, t, k))
    && Money(t.coins) == Money(s.coins)
  }

  lemma Chain(s: State, t: State, u: State)
    requires Moves(s, t) && Moves(t, u)
    ensures Moves(s, u)
  {
    forall k: BalanceKey
      ensures Rate(u, k) == Rate(s, k) && Drift(s, u, k)
    {
      assert Drift(s, t, k) && Drift(t, u, k);
    }
  }

  /** Steps that touch no record, no rate and no reward. */
  lemma Still(s: State, t: State)
    requires Fine(s) && t.balances == s.balances && t.coins.rewarded == s.coins.rewarded
    requires s.editions.Keys <= t.editions.Keys
    requires forall id :: id in t.editions ==>
      t.editions[id].rewardPerUnit == if id in s.editions then s.editions[id].rewardPerUnit else 0
    requires Money(t.coins) == Money(s.coins)
    ensures Moves(s, t)
  {
    forall k: BalanceKey
      ensures Rate(t, k) == Rate(s, k) && Drift(s, t, k)
    {
      assert Entitled(t, k) == Entitled(s, k);
    }
  }

  // ----- coins -----

  lemma CollectMoney(c: Coins, from: Address, n: nat)
    ensures Collect(c, from, n).Ok? ==> Money(Collect(c, from, n).value) == Money(c) && Collect(c, from, n).value.rewarded == c.rewarded
  {
    if 0 < n <= Wallet(c, from) {
      SumPut<Address, nat>(c.wallets, WalletOf(), from, Wallet(c, from) - n);
    }
  }

  lemma RefundMoney(c: Coins, to: Address, n: nat)
    ensures Refund(c, to, n).Ok? ==> Money(Refund(c, to, n).value) == Money(c) && Refund(c, to, n).value.rewarded == c.rewarded
  {
    SumPut<Address, nat>(c.wallets, WalletOf(), to, Wallet(c, to) + n);
  }

  lemma BurnMoney(c: Coins, from: Address, n: nat)
    ensures BurnFrom(c, from, n).Ok? ==> Money(BurnFrom(c, from, n).value) == Money(c) && BurnFrom(c, from, n).value.rewarded == c.rewarded
  {
    hide Collect;
    CollectMoney(c, from, n);
  }

  lemma PayMoney(c: Coins, k: BalanceKey, to: Address, n: nat)
    ensures PayReward(c, k, to, n).Ok? ==>
      var c1 := PayReward(c, k, to, n).value;
      Money(c1) == Money(c) && c1.rewarded == c.rewarded[k := Rewarded(c, k) + n]
  {
    hide Refund;
    RefundMoney(c, to, n);
  }

  // ----- one record -----

  /** What storing `b` may do to the entitlement at `k`: settle it, or leave it. */
  ghost predicate Fair(s: State, k: BalanceKey, rate: nat, b: Balance) {
    && b.amount <= HARD_MAX && b.locked <= HARD_MAX && b.rewardDebt <= rate
    && var was := if k in s.balances then ExactClaim(s.balances[k], rate) else 0;
       if k in s.balances && 0 < b.amount + b.locked && b.rewardDebt == s.balances[k].rewardDebt
       then ExactClaim(b, rate) == was
       else b.rewardDebt == rate && Scaled(b.unclaimed) <= was < Scaled(b.unclaimed) + Scaled(1)
            && (Fresh(s, k) ==> Scaled(b.unclaimed) == was)
  }

  lemma WriteMoves(s: State, e: Edition, k: BalanceKey, b: Balance)
    requires Fine(s) && k.0 in s.editions && Fair(s, k, Rate(s, k), b)
    ensures WriteBalance(s, e, k, b).Ok? ==> Moves(s, WriteBalance(s, e, k, b).value.0)
  {
    if WriteBalance(s, e, k, b).Ok? {
      var t := WriteBalance(s, e, k, b).value.0;
      WriteMoney(s, e, k, b);
      forall j: BalanceKey
        ensures Rate(t, j) == Rate(s, j) && Drift(s, t, j)
      {
        if j == k {
          WriteDrift(s, t, k, b);
        } else {
          assert Entitled(t, j) == Entitled(s, j);
        }
      }
    }
  }

  lemma WriteMoney(s: State, e: Edition, k: BalanceKey, b: Balance)
    requires b.amount <= HARD_MAX && b.locked <= HARD_MAX
    ensures WriteBalance(s, e, k, b).Ok? ==>
      var t := WriteBalance(s, e, k, b).value.0;
      var paid := if b.amount + b.locked == 0 && k in s.balances then b.unclaimed else 0;
      && Money(t.coins) == Money(s.coins)
      && (forall j :: Rewarded(t.coins, j) == Rewarded(s.coins, j) + if j == k then paid else 0)
      && t.balances == Put(s.balances, k, b) && t.editions == s.editions
  {
    if b.amount + b.locked == 0 && Refund(s.coins, k.1, b.deposit).Ok? {
      RefundMoney(s.coins, k.1, b.deposit);
      PayMoney(Refund(s.coins, k.1, b.deposit).value, k, k.1, b.unclaimed);
    }
    assert k !in s.balances ==> s.balances - {k} == s.balances;
  }

  lemma WriteDrift(s: State, t: State, k: BalanceKey, b: Balance)
    requires Fair(s, k, Rate(s, k), b) && Fine(s) && t.editions == s.editions && t.balances == Put(s.balances, k, b)
    requires Rewarded(t.coins, k) ==
               Rewarded(s.coins, k) + if b.amount + b.locked == 0 && k in s.balances then b.unclaimed else 0
    ensures Drift(s, t, k)
  {
    assert b.rewardDebt == Rate(s, k) ==> ExactClaim(b, Rate(s, k)) == Scaled(b.unclaimed);
  }

  lemma SettleFair(s: State, k: BalanceKey, e: Edition, b: Balance)
    requires Fine(s) && k in s.balances && e.rewardPerUnit == Rate(s, k)
    requires b.amount <= HARD_MAX && b.locked <= HARD_MAX
    requires b.unclaimed == Settle(s.balances[k], e).unclaimed && b.rewardDebt == e.rewardPerUnit
    ensures Fair(s, k, Rate(s, k), b)
  {
    SettleLoss(s.balances[k], e);
    SettledClaim(b);
  }

  /** Settling a settled record changes nothing; settling any other loses less than a coin. */
  lemma SettleLoss(b: Balance, e: Edition)
    requires RecordFine(b, e.rewardPerUnit)
    ensures Scaled(Settle(b, e).unclaimed) <= ExactClaim(b, e.rewardPerUnit) < Scaled(Settle(b, e).unclaimed) + Scaled(1)
    ensures b.rewardDebt == e.rewardPerUnit ==> Scaled(Settle(b, e).unclaimed) == ExactClaim(b, e.rewardPerUnit)
  {
    var x := (e.rewardPerUnit - b.rewardDebt) * (b.amount + b.locked);
    assert Units(b) == b.amount + b.locked;
    assert e.rewardPerUnit == b.rewardDebt ==> x == 0;
    assert x == (b.amount + b.locked) * (e.rewardPerUnit - b.rewardDebt);
  }

  ghost predicate Working(s: State, id: EditionId, e: Edition) {
    Fine(s) && id in s.editions && e.rewardPerUnit == s.editions[id].rewardPerUnit
  }

  lemma DebitMoves(s: State, id: EditionId, e: Edition, a: Address, amount: nat, fromLocked: bool)
    requires Working(s, id, e)
    ensures Debit(s, e, (id, a), amount, fromLocked).Ok? ==>
      var (t, e1) := Debit(s, e, (id, a), amount, fromLocked).value;
      Moves(s, t) && Working(t, id, e1)
  {
    hide Moves, Fair, WriteBalance;
    if Debit(s, e, (id, a), amount, fromLocked).Ok? {
      var b := Settle(s.balances[(id, a)], e);
      var b1 := if fromLocked then b.(locked := b.locked - amount) else b.(amount := b.amount - amount);
      SettleFair(s, (id, a), e, b1);
      WriteMoves(s, e, (id, a), b1);
      WriteWorking(s, id, e, (id, a), b1);
    }
  }

  lemma WriteWorking(s: State, id: EditionId, e: Edition, k: BalanceKey, b: Balance)
    requires Working(s, id, e)
    ensures WriteBalance(s, e, k, b).Ok? ==>
      var (t, e1) := WriteBalance(s, e, k, b).value;
      Moves(s, t) ==> Working(t, id, e1)
  {
    if WriteBalance(s, e, k, b).Ok? {
      assert WriteBalance(s, e, k, b).value.0.editions == s.editions;
    }
  }

  lemma LockMoves(s: State, id: EditionId, e: Edition, a: Address, amount: nat, unlock: bool)
    requires Working(s, id, e)
    ensures LockUnits(s, e, (id, a), amount, unlock).Ok? ==>
      var (t, e1) := LockUnits(s, e, (id, a), amount, unlock).value;
      Moves(s, t) && Working(t, id, e1)
  {
    hide Moves, WriteBalance;
    if LockUnits(s, e, (id, a), amount, unlock).Ok? {
      var b := s.balances[(id, a)];
      var b1 := if unlock then b.(locked := b.locked - amount, amount := b.amount + amount)
                else b.(amount := b.amount - amount, locked := b.locked + amount);
      WriteMoves(s, e, (id, a), b1);
      WriteWorking(s, id, e, (id, a), b1);
    }
  }

  lemma CreditMoves(s: State, id: EditionId, e: Edition, a: Address, amount: nat, f: Funding)
    requires Working(s, id, e)
    ensures Credit(s, e, (id, a), amount, f).Ok? ==>
      var (t, e1) := Credit(s, e, (id, a), amount, f).value;
      Moves(s, t) && Working(t, id, e1)
  {
    hide Moves, Fair, WriteBalance, Collect, Refund;
    if Credit(s, e, (id, a), amount, f).Ok? {
      var k := (id, a);
      var found := k in s.balances;
      if f.Escrowed? { RefundMoney(s.coins, f.escrowFrom, f.escrow); } else { CollectMoney(s.coins, f.payer, f.tokenDeposit); }
      var c := if f.Escrowed? == found then
                 (if found then Refund(s.coins, f.escrowFrom, f.escrow).value else Collect(s.coins, f.payer, f.tokenDeposit).value)
               else s.coins;
      var s1 := s.(coins := c);
      Still(s, s1);
      MovesFine(s, s1);
      var b := if found then Settle(s.balances[k], e).(amount := s.balances[k].amount + amount)
               else Balance(amount, 0, if f.Escrowed? then f.escrow else f.tokenDeposit, e.rewardPerUnit, 0);
      if found { SettleFair(s1, k, e, b); } else { NewFair(s1, k, b); }
      assert Credit(s, e, k, amount, f) == WriteBalance(s1, e, k, b);
      WriteMoves(s1, e, k, b);
      WriteWorking(s1, id, e, k, b);
      Chain(s, s1, WriteBalance(s1, e, k, b).value.0);
    }
  }

  lemma NewFair(s: State, k: BalanceKey, b: Balance)
    requires k !in s.balances && b.rewardDebt == Rate(s, k) && b.unclaimed == 0 && b.amount <= HARD_MAX && b.locked == 0
    ensures Fair(s, k, Rate(s, k), b)
  {}

  lemma MovesFine(s: State, t: State)
    requires Moves(s, t)
    ensures Fine(t)
  {}

  // ----- messages -----

  lemma MintToMoves(s: State, e: Edition, id: EditionId, minter: Address, to: Address, amount: nat, direct: bool, t: Terms)
    requires Working(s, id, e)
    ensures MintUnitsTo(s, e, id, minter, to, amount, direct, t).Ok? ==>
      var (s1, e1) := MintUnitsTo(s, e, id, minter, to, amount, direct, t).value;
      Moves(s, s1) && Working(s1, id, e1)
  {
    hide Moves, Credit, ParkUnits;
    CreditMoves(s, id, e, to, amount, PaidBy(minter, t.tokenDeposit));
    ParkMoves(s, UnitMint, id, e, minter, minter, to, amount, t);
  }

  lemma ParkMoves(s: State, kind: Kind, id: EditionId, e: Edition, payer: Address, from: Address, to: Address, amount: nat, t: Terms)
    requires Working(s, id, e)
    ensures ParkUnits(s, kind, id, payer, from, to, amount, t).Ok? ==>
      var s1 := ParkUnits(s, kind, id, payer, from, to, amount, t).value.0;
      Moves(s, s1) && Working(s1, id, e)
  {
    hide Moves, BurnFrom, Collect;
    if ParkUnits(s, kind, id, payer, from, to, amount, t).Ok? {
      BurnMoney(s.coins, payer, t.inboxFee);
      CollectMoney(BurnFrom(s.coins, payer, t.inboxFee).value, payer, t.tokenDeposit);
      Still(s, ParkUnits(s, kind, id, payer, from, to, amount, t).value.0);
    }
  }

  lemma {:induction false} MintEachMoves(s: State, e: Edition, id: EditionId, minter: Address, entries: seq<Entry>,
                                         tokenDeposit: nat, inboxFee: nat)
    requires Working(s, id, e)
    ensures MintEach(s, e, id, minter, entries, tokenDeposit, inboxFee).Ok? ==>
      var (s1, e1) := MintEach(s, e, id, minter, entries, tokenDeposit, inboxFee).value;
      Moves(s, s1) && Working(s1, id, e1)
    decreases |entries|
  {
    hide Moves, MintUnitsTo;
    if entries == [] {
      Still(s, s);
    } else {
      var x := entries[0];
      var t := Terms(tokenDeposit, inboxFee, x.slotFree);
      MintToMoves(s, e, id, minter, x.recipient, x.amount, x.direct, t);
      if MintUnitsTo(s, e, id, minter, x.recipient, x.amount, x.direct, t).Ok? {
        var (s1, e1) := MintUnitsTo(s, e, id, minter, x.recipient, x.amount, x.direct, t).value;
        MintEachMoves(s1, e1, id, minter, entries[1..], tokenDeposit, inboxFee);
        if MintEach(s1, e1, id, minter, entries[1..], tokenDeposit, inboxFee).Ok? {
          Chain(s, s1, MintEach(s1, e1, id, minter, entries[1..], tokenDeposit, inboxFee).value.0);
        }
      }
    }
  }

  /** Saving the working copy, with any change to the item books. */
  lemma SaveMoves(s: State, s1: State, id: EditionId, e: Edition, t: State)
    requires Moves(s, s1) && Working(s1, id, e)
    requires t == s1.(editions := s1.editions[id := e], pending := t.pending, listings := t.listings,
                      pendingSeq := t.pendingSeq, listingSeq := t.listingSeq)
    ensures Moves(s, t)
  {
    hide Moves;
    Still(s1, t);
    Chain(s, s1, t);
  }

  lemma Start(s: State, s1: State, id: EditionId)
    requires Fine(s) && id in s.editions
    requires s1 == s.(pending := s1.pending, listings := s1.listings)
    ensures Moves(s, s1) && Working(s1, id, s.editions[id])
  {
    Still(s, s1);
  }

  lemma MintMoves(s: State, op: Op)
    requires Fine(s) && op.MintUnits? && ApplyMint(s, op).Ok?
    ensures Moves(s, ApplyMint(s, op).value)
  {
    hide Moves, MintEach;
    MintEachMoves(s, s.editions[op.id], op.id, op.minter, op.entries, op.tokenDeposit, op.inboxFee);
    var (s1, e1) := MintEach(s, s.editions[op.id], op.id, op.minter, op.entries, op.tokenDeposit, op.inboxFee).value;
    SaveMoves(s, s1, op.id, e1, ApplyMint(s, op).value);
  }

  lemma DebitCreditMoves(s: State, id: EditionId, e: Edition, from: Address, to: Address, amount: nat, locked: bool, f: Funding)
    requires Working(s, id, e) && Debit(s, e, (id, from), amount, locked).Ok?
    ensures
      var (s1, e1) := Debit(s, e, (id, from), amount, locked).value;
      Credit(s1, e1, (id, to), amount, f).Ok? ==>
        var (s2, e2) := Credit(s1, e1, (id, to), amount, f).value;
        Moves(s, s2) && Working(s2, id, e2)
  {
    hide Moves, Debit, Credit;
    DebitMoves(s, id, e, from, amount, locked);
    var (s1, e1) := Debit(s, e, (id, from), amount, locked).value;
    CreditMoves(s1, id, e1, to, amount, f);
    if Credit(s1, e1, (id, to), amount, f).Ok? {
      Chain(s, s1, Credit(s1, e1, (id, to), amount, f).value.0);
    }
  }

  lemma TransferMoves(s: State, op: Op)
    requires Fine(s) && op.TransferUnits? && ApplyTransfer(s, op).Ok?
    ensures Moves(s, ApplyTransfer(s, op).value)
  {
    hide Moves, Debit, Credit, LockUnits, ParkUnits;
    var id, e, t := op.id, s.editions[op.id], ApplyTransfer(s, op).value;
    if op.direct {
      var f := PaidBy(op.sender, op.terms.tokenDeposit);
      DebitCreditMoves(s, id, e, op.holder, op.to, op.amount, false, f);
      var (s1, e1) := Debit(s, e, (id, op.holder), op.amount, false).value;
      var (s2, e2) := Credit(s1, e1, (id, op.to), op.amount, f).value;
      SaveMoves(s, s2, id, e2, t);
    } else {
      LockMoves(s, id, e, op.holder, op.amount, false);
      var (s1, e1) := LockUnits(s, e, (id, op.holder), op.amount, false).value;
      ParkMoves(s1, UnitTransfer, id, e1, op.sender, op.holder, op.to, op.amount, op.terms);
      var s2 := ParkUnits(s1, UnitTransfer, id, op.sender, op.holder, op.to, op.amount, op.terms).value.0;
      Chain(s, s1, s2);
      SaveMoves(s, s2, id, e1, t);
    }
  }

  lemma ListMoves(s: State, op: Op)
    requires Fine(s) && op.ListUnits? && ApplyList(s, op).Ok?
    ensures Moves(s, ApplyList(s, op).value)
  {
    hide Moves, LockUnits;
    var k, e := (op.id, op.seller), s.editions[op.id];
    LockMoves(s, op.id, e, op.seller, op.amount, false);
    var (s1, e1) := LockUnits(s, e, k, op.amount, false).value;
    SaveMoves(s, s1, op.id, e1, ApplyList(s, op).value);
  }

  lemma UpdateListingMoves(s: State, op: Op)
    requires Fine(s) && op.UpdateUnitListing? && ApplyUpdateListing(s, op).Ok?
    ensures Moves(s, ApplyUpdateListing(s, op).value)
  {
    hide Moves, LockUnits;
    var l := s.listings[op.listing];
    var k, e := (l.edition, l.seller), s.editions[l.edition];
    Start(s, s, l.edition);
    if op.amount > l.quantity {
      LockMoves(s, l.edition, e, l.seller, op.amount - l.quantity, false);
    } else if op.amount < l.quantity {
      LockMoves(s, l.edition, e, l.seller, l.quantity - op.amount, true);
    }
    var (s1, e1) := Relock(s, e, k, l.quantity, op.amount).value;
    SaveMoves(s, s1, l.edition, e1, ApplyUpdateListing(s, op).value);
  }

  lemma RemoveMoves(s: State, lid: nat)
    requires Fine(s) && RemoveUnitListing(s, lid).Ok?
    ensures Moves(s, RemoveUnitListing(s, lid).value)
  {
    hide Moves, LockUnits;
    var l := s.listings[lid];
    var s1 := s.(listings := s.listings - {lid});
    Still(s, s1);
    if l.quantity != 0 {
      Start(s, s1, l.edition);
      LockMoves(s1, l.edition, s.editions[l.edition], l.seller, l.quantity, true);
      var (s2, e2) := LockUnits(s1, s.editions[l.edition], (l.edition, l.seller), l.quantity, true).value;
      Chain(s, s1, s2);
      SaveMoves(s, s2, l.edition, e2, RemoveUnitListing(s, lid).value);
    }
  }

  lemma BuyMoves(s: State, op: Op)
    requires Fine(s) && op.BuyUnits? && ApplyBuy(s, op).Ok?
    ensures Moves(s, ApplyBuy(s, op).value)
  {
    hide Moves, Debit, Credit, RemoveUnitListing;
    var l := s.listings[op.listing];
    var id, e := l.edition, s.editions[l.edition];
    var f := PaidBy(op.buyer, op.tokenDeposit);
    DebitCreditMoves(s, id, e, l.seller, op.buyer, op.amount, true, f);
    var (s1, e1) := Debit(s, e, (id, l.seller), op.amount, true).value;
    var (s2, e2) := Credit(s1, e1, (id, op.buyer), op.amount, f).value;
    var rest := l.(quantity := l.quantity - op.amount);
    var s3 := SaveEdition(s2, id, e2);
    var s4 := s3.(listings := s3.listings[op.listing := rest]);
    SaveMoves(s, s2, id, e2, s4);
    if rest.quantity == 0 {
      MovesFine(s, s4);
      RemoveMoves(s4, op.listing);
      Chain(s, s4, RemoveUnitListing(s4, op.listing).value);
    }
  }

  lemma BurnMoves(s: State, op: Op)
    requires Fine(s) && op.BurnUnits? && ApplyBurn(s, op).Ok?
    ensures Moves(s, ApplyBurn(s, op).value)
  {
    hide Moves, Debit;
    DebitMoves(s, op.id, s.editions[op.id], op.holder, op.amount, false);
    var (s1, e1) := Debit(s, s.editions[op.id], (op.id, op.holder), op.amount, false).value;
    var e2 := e1.(supply := Wrap(e1.supply - op.amount));
    SaveMoves(s, s1, op.id, e2.(burned := e2.burned + op.amount), ApplyBurn(s, op).value);
  }

  lemma ResolveMoves(s: State, pid: nat, outcome: Outcome)
    requires Fine(s) && ResolvePendingUnits(s, pid, outcome).Ok?
    ensures Moves(s, ResolvePendingUnits(s, pid, outcome).value)
  {
    hide Moves, Debit, Credit, LockUnits, Refund;
    var pu, u := s.pending[pid], ResolvePendingUnits(s, pid, outcome).value;
    var id, e0 := pu.edition, s.editions[pu.edition];
    var s1 := s.(pending := s.pending - {pid});
    Start(s, s1, id);
    var mint := pu.kind == UnitMint;
    var e := if mint then e0.(reserved := Wrap(e0.reserved - pu.amount)) else e0;
    var f := Escrowed(pu.deposit, pu.from);
    if outcome == Accepted && mint {
      var e2 := e.(supply := e.supply + pu.amount);
      CreditMoves(s1, id, e2, pu.to, pu.amount, f);
      var (s3, e3) := Credit(s1, e2, (id, pu.to), pu.amount, f).value;
      Chain(s, s1, s3);
      SaveMoves(s, s3, id, e3, u);
    } else if outcome == Accepted {
      DebitCreditMoves(s1, id, e, pu.from, pu.to, pu.amount, true, f);
      var (s2, e2) := Debit(s1, e, (id, pu.from), pu.amount, true).value;
      var (s3, e3) := Credit(s2, e2, (id, pu.to), pu.amount, f).value;
      Chain(s, s1, s3);
      SaveMoves(s, s3, id, e3, u);
    } else {
      LockMoves(s1, id, e, pu.from, pu.amount, true);
      var (s2, e2) := if mint then (s1, e) else LockUnits(s1, e, (id, pu.from), pu.amount, true).value;
      if !mint { Chain(s, s1, s2); }
      RefundMoney(s2.coins, pu.from, pu.deposit);
      var s3 := s2.(coins := Refund(s2.coins, pu.from, pu.deposit).value);
      Still(s2, s3);
      Chain(s, s2, s3);
      SaveMoves(s, s3, id, e2, u);
    }
  }

  lemma CreateMoves(s: State, op: Op)
    requires Fine(s) && op.CreateEdition? && ApplyCreate(s, op).Ok?
    ensures Moves(s, ApplyCreate(s, op).value)
  {
    hide BurnFrom, Moves;
    BurnMoney(s.coins, op.creator, op.fee);
    Still(s, ApplyCreate(s, op).value);
  }

  lemma SetMaxSupplyMoves(s: State, op: Op)
    requires Fine(s) && op.SetMaxSupply? && ApplySetMaxSupply(s, op).Ok?
    ensures Moves(s, ApplySetMaxSupply(s, op).value)
  {
    hide Moves;
    Still(s, ApplySetMaxSupply(s, op).value);
  }

  lemma InvFine(s: State)
    requires Inv(s)
    ensures Fine(s)
  {
    forall k | k in s.balances
      ensures k.0 in s.editions && RecordFine(s.balances[k], Rate(s, k))
    {
      Enter(s, k.0, k);
      HeldBound(s, k.0, s.editions[k.0], k, LEVEL, k.1);
    }
  }

  /** Claiming settles the record and turns all it has into coins paid. */
  lemma ClaimMoves(s: State, op: Op)
    requires Inv(s) && op.ClaimRewards? && ApplyClaim(s, op).Ok?
    ensures Moves(s, ApplyClaim(s, op).value)
  {
    hide Inv, WriteBalance, Settle, PayReward;
    var k, t := (op.id, op.holder), ApplyClaim(s, op).value;
    InvFine(s);
    ClaimShape(s, op);
    var e := s.editions[op.id];
    var b := Settle(s.balances[k], e);
    var b0 := b.(unclaimed := 0);
    SettleOnly(s.balances[k], e);
    SettleLoss(s.balances[k], e);
    SettledClaim(b0);
    WriteMoney(s, e, k, b0);
    PayMoney(WriteBalance(s, e, k, b0).value.0.coins, k, op.payee, b.unclaimed);
    ClaimDrift(s, t, k, b);
  }

  lemma ClaimDrift(s: State, t: State, k: BalanceKey, b: Balance)
    requires Fine(s) && k in s.balances && t.editions == s.editions && t.balances == s.balances[k := b.(unclaimed := 0)]
    requires b == s.balances[k].(unclaimed := b.unclaimed, rewardDebt := Rate(s, k))
    requires t.coins.rewarded == s.coins.rewarded[k := Rewarded(s.coins, k) + b.unclaimed]
    requires Scaled(b.unclaimed) <= Owed(s, k) < Scaled(b.unclaimed) + Scaled(1)
    requires Fresh(s, k) ==> Scaled(b.unclaimed) == Owed(s, k)
    requires Money(t.coins) == Money(s.coins)
    ensures Moves(s, t)
  {
    hide Sum;
    SettledClaim(b.(unclaimed := 0));
    forall j: BalanceKey
      ensures Rate(t, j) == Rate(s, j) && Drift(s, t, j)
    {
      if j == k {
        assert Owed(t, j) == 0;
      } else {
        assert Entitled(t, j) == Entitled(s, j);
      }
    }
  }

  /** Funding gives every key the rate increase times the units it holds right then. */
  lemma FundGains(s: State, op: Op, k: BalanceKey)
    requires op.FundEdition? && ApplyFund(s, op).Ok?
    ensures var t := ApplyFund(s, op).value;
      && Money(t.coins) == Money(s.coins)
      && Entitled(t, k) == Entitled(s, k)
           + if k.0 == op.id then RewardPerUnitDelta(op.amount, s.editions[op.id].supply) * Held(s, k) else 0
  {
    hide Collect;
    CollectMoney(s.coins, op.funder, op.amount);
    if k.0 == op.id && k in s.balances {
      var e, b := s.editions[op.id], s.balances[k];
      var delta := RewardPerUnitDelta(op.amount, e.supply);
      var u, x := b.amount + b.locked, e.rewardPerUnit - b.rewardDebt;
      assert u * (x + delta) == u * x + delta * u;
    }
  }

  function Held(s: State, k: BalanceKey): nat { GetBalance(s, k).amount + GetBalance(s, k).locked }

  // ----- over every run -----

  lemma DeliverMoves(s: State, op: Op)
    requires Inv(s) && !op.FundEdition?
    ensures Moves(s, Deliver(s, op))
  {
    hide Inv, Moves;
    InvFine(s);
    if Apply(s, op).Err? {
      Still(s, s);
    } else {
      match op {
        case CreateEdition(_, _, _, _) => CreateMoves(s, op);
        case MintUnits(_, _, _, _, _) => MintMoves(s, op);
        case TransferUnits(_, _, _, _, _, _, _) => TransferMoves(s, op);
        case ListUnits(_, _, _) => ListMoves(s, op);
        case UpdateUnitListing(_, _) => UpdateListingMoves(s, op);
        case DelistUnits(lid) => RemoveMoves(s, lid);
        case BuyUnits(_, _, _, _) => BuyMoves(s, op);
        case BurnUnits(_, _, _) => BurnMoves(s, op);
        case ClaimRewards(_, _, _) => ClaimMoves(s, op);
        case SetMaxSupply(_, _) => SetMaxSupplyMoves(s, op);
        case Resolve(pid, outcome) => ResolveMoves(s, pid, outcome);
      }
    }
  }

  /** What one message adds to a key's earnings: only a funding payment adds any. */
  function Increment(s: State, op: Op, k: BalanceKey): nat {
    if op.FundEdition? && op.id == k.0 && ApplyFund(s, op).Ok?
    then RewardPerUnitDelta(op.amount, s.editions[op.id].supply) * Held(s, k)
    else 0
  }

  /** The sum, over the run's funding payments, of the rate increase times the units `k` held then. */
  function Earned(wallets: map<Address, nat>, ops: seq<Op>, k: BalanceKey): nat
    decreases |ops|
  {
    if ops == [] then 0
    else
      var before := ops[..|ops| - 1];
      Earned(wallets, before, k) + Increment(Run(Genesis(wallets), before), ops[|ops| - 1], k)
  }

  /** The fraction of a coin that settling a record at the current rate rounds off. */
  function Remainder(s: State, k: BalanceKey): nat {
    if k in s.balances
    then (s.balances[k].amount + s.balances[k].locked) * (Rate(s, k) - s.balances[k].rewardDebt) % 1_000_000_000_000_000_000
    else 0
  }

  function Loss(s: State, t: State, k: BalanceKey): nat { if Fresh(t, k) then Remainder(s, k) else 0 }

  /** What settling rounded off over a run: at each message that leaves the record
      settled at its rate, the remainder it met. */
  function RoundedOff(wallets: map<Address, nat>, ops: seq<Op>, k: BalanceKey): nat
    decreases |ops|
  {
    if ops == [] then 0
    else
      var before := ops[..|ops| - 1];
      RoundedOff(wallets, before, k) + Loss(Run(Genesis(wallets), before), Run(Genesis(wallets), ops), k)
  }

  /** The number of funding payments of `k`'s edition that took effect. */
  function Fundings(wallets: map<Address, nat>, ops: seq<Op>, k: BalanceKey): nat
    decreases |ops|
  {
    if ops == [] then 0
    else
      var before, op := ops[..|ops| - 1], ops[|ops| - 1];
      Fundings(wallets, before, k) + if Funds(Run(Genesis(wallets), before), op, k) then 1 else 0
  }

  predicate Funds(s: State, op: Op, k: BalanceKey) { op.FundEdition? && op.id == k.0 && ApplyFund(s, op).Ok? }

  /** A settled record's entitlement is whole coins; another's is its remainder above. */
  lemma EntitledParts(s: State, k: BalanceKey)
    ensures Entitled(s, k) % 1_000_000_000_000_000_000 == Remainder(s, k)
    ensures Fresh(s, k) ==> Remainder(s, k) == 0
  {
    if k in s.balances {
      var b := s.balances[k];
      var x := (b.amount + b.locked) * (Rate(s, k) - b.rewardDebt);
      WholeAndPart(Rewarded(s.coins, k) + b.unclaimed, x);
      assert Rate(s, k) == b.rewardDebt ==> x == 0;
    } else {
      WholeAndPart(Rewarded(s.coins, k), 0);
    }
  }

  lemma WholeAndPart(n: int, x: int)
    ensures (1_000_000_000_000_000_000 * n + x) % 1_000_000_000_000_000_000 == x % 1_000_000_000_000_000_000
  {
  }

  /** A message that is no funding loses the remainder if it leaves the record settled, and nothing else. */
  lemma DriftIsRemainder(s: State, t: State, k: BalanceKey)
    requires Moves(s, t)
    ensures Entitled(s, k) == Entitled(t, k) + if Fresh(t, k) then Remainder(s, k) else 0
    ensures Fresh(s, k) ==> Fresh(t, k)
  {
    assert Drift(s, t, k);
    EntitledParts(s, k);
    EntitledParts(t, k);
    hide Entitled, Remainder, Fresh;
    if Fresh(t, k) { SamePart(Entitled(s, k), Entitled(t, k)); }
  }

  lemma SamePart(x: int, y: int)
    requires y <= x < y + 1_000_000_000_000_000_000 && y % 1_000_000_000_000_000_000 == 0
    ensures x == y + x % 1_000_000_000_000_000_000
  {
  }

  /** A funding payment unsettles exactly the records of its edition. */
  lemma FundUnsettles(s: State, op: Op, k: BalanceKey)
    requires op.FundEdition? && ApplyFund(s, op).Ok? && Fine(s)
    ensures var t := ApplyFund(s, op).value;
      if k.0 == op.id && k in s.balances then !Fresh(t, k)
      else (Fresh(t, k) <==> Fresh(s, k))
  {
    hide Collect;
    if k in s.balances { assert RecordFine(s.balances[k], Rate(s, k)); }
  }

  /** One message: what the holdings earn by it is what the entitlement gains, and what is lost. */
  lemma StepExact(s: State, op: Op, k: BalanceKey)
    requires Inv(s)
    ensures var t := Deliver(s, op);
      && Entitled(s, k) + Increment(s, op, k) == Entitled(t, k) + Loss(s, t, k)
      && Loss(s, t, k) <= 999_999_999_999_999_999 && (Fresh(s, k) ==> Loss(s, t, k) == 0)
      && (Fresh(s, k) && !Funds(s, op, k) ==> Fresh(t, k)) && (!Fresh(t, k) ==> Loss(s, t, k) == 0)
      && (Funds(s, op, k) && Fresh(t, k) ==> Fresh(s, k))
  {
    InvFine(s);
    hide Inv, Moves, ApplyFund, Entitled, Remainder, Fresh;
    EntitledParts(s, k);
    RemainderSmall(s, k);
    if op.FundEdition? {
      if ApplyFund(s, op).Ok? {
        FundGains(s, op, k);
        FundUnsettles(s, op, k);
        FundOfOthers(s, op, k);
      }
    } else {
      DeliverMoves(s, op);
      DriftIsRemainder(s, Deliver(s, op), k);
    }
  }

  /** The exact account of a run: what a key's holdings earned is what it was paid,
      what it is owed, and what settling rounded off; that is less than one coin for
      each funding of its edition, the last one aside while the record is not settled. */
  lemma {:induction false} RewardsExact(wallets: map<Address, nat>, ops: seq<Op>, k: BalanceKey)
    ensures
      var s := Run(Genesis(wallets), ops);
      && Earned(wallets, ops, k) == Entitled(s, k) + RoundedOff(wallets, ops, k)
      && RoundedOff(wallets, ops, k)
         <= 999_999_999_999_999_999 * (Fundings(wallets, ops, k) - if Fresh(s, k) then 0 else 1)
    decreases |ops|
  {
    hide Inv, Entitled, Loss, Fresh, Increment, Funds, Deliver;
    if ops == [] {
      GenesisOwesNothing(wallets, k);
    } else {
      var before, op := ops[..|ops| - 1], ops[|ops| - 1];
      RewardsExact(wallets, before, k);
      RunKeeps(wallets, before);
      StepExact(Run(Genesis(wallets), before), op, k);
    }
  }

  lemma RemainderSmall(s: State, k: BalanceKey)
    ensures Remainder(s, k) <= Scaled(1) - 1
  {
  }

  lemma FundOfOthers(s: State, op: Op, k: BalanceKey)
    requires op.FundEdition? && ApplyFund(s, op).Ok?
    ensures k !in s.balances ==> Increment(s, op, k) == 0 && Fresh(s, k) && Fresh(ApplyFund(s, op).value, k)
  {
  }

  /** Rewards follow the units: what a key was paid and is owed is what its holdings
      earned, short of it by less than one coin for each funding of its edition. */
  lemma RewardsFollowUnits(wallets: map<Address, nat>, ops: seq<Op>, k: BalanceKey)
    ensures var s := Run(Genesis(wallets), ops);
            Entitled(s, k) <= Earned(wallets, ops, k) <= Entitled(s, k) + 999_999_999_999_999_999 * Fundings(wallets, ops, k)
  {
    hide Run, Entitled, Fresh, Earned, Fundings, RoundedOff;
    RewardsExact(wallets, ops, k);
  }

  lemma GenesisOwesNothing(wallets: map<Address, nat>, k: BalanceKey)
    ensures Entitled(Genesis(wallets), k) == 0 && Fresh(Genesis(wallets), k)
  {}

  /** In whole coins: a key's payouts and what it can claim now never exceed what it earned. */
  lemma NeverOverpaid(wallets: map<Address, nat>, ops: seq<Op>, k: BalanceKey)
    ensures var s := Run(Genesis(wallets), ops);
            Scaled(Rewarded(s.coins, k) + if k in s.balances then Claimable(s.balances[k], Rate(s, k)) else 0)
              <= Earned(wallets, ops, k)
  {
    hide Inv;
    var s := Run(Genesis(wallets), ops);
    RewardsFollowUnits(wallets, ops, k);
    RunKeeps(wallets, ops);
    InvFine(s);
    if k in s.balances {
      SettleLoss(s.balances[k], s.editions[k.0]);
    }
  }

  /** No run makes or loses a coin: wallets, the module account and the burned coins add up. */
  lemma {:induction false} MoneyConserved(wallets: map<Address, nat>, ops: seq<Op>)
    ensures Money(Run(Genesis(wallets), ops).coins) == Sum(wallets, WalletOf())
    decreases |ops|
  {
    hide Inv, ApplyFund;
    if ops != [] {
      var before, op := ops[..|ops| - 1], ops[|ops| - 1];
      MoneyConserved(wallets, before);
      RunKeeps(wallets, before);
      var s := Run(Genesis(wallets), before);
      if op.FundEdition? {
        if ApplyFund(s, op).Ok? { FundGains(s, op, (op.id, "")); }
      } else {
        DeliverMoves(s, op);
      }
    }
  }

  // ----- is settling visible? -----

  /** Settling between two rate increases changes what is claimable in the end
      exactly when the two fractions it rounds apart would have made a coin. */
  lemma SettlingVisible(b: Balance, e1: Edition, e2: Edition)
    requires RecordFine(b, e1.rewardPerUnit) && e1.rewardPerUnit <= e2.rewardPerUnit
    ensures
      var x := (b.amount + b.locked) * (e1.rewardPerUnit - b.rewardDebt);
      var y := (b.amount + b.locked) * (e2.rewardPerUnit - e1.rewardPerUnit);
      (Claimable(Settle(b, e1), e2.rewardPerUnit) == Claimable(b, e2.rewardPerUnit)) <==>
        (x % 1_000_000_000_000_000_000 + y % 1_000_000_000_000_000_000 < 1_000_000_000_000_000_000)
  {
    var u := b.amount + b.locked;
    var x := u * (e1.rewardPerUnit - b.rewardDebt);
    var y := u * (e2.rewardPerUnit - e1.rewardPerUnit);
    AccruedAt(b, e1.rewardPerUnit);
    AccruedAt(b, e2.rewardPerUnit);
    AccruedAt(Settle(b, e1), e2.rewardPerUnit);
    assert u * (e2.rewardPerUnit - b.rewardDebt) == x + y;
  }

  lemma AccruedAt(b: Balance, rate: nat)
    requires b.amount <= HARD_MAX && b.locked <= HARD_MAX && 0 < b.amount + b.locked && b.rewardDebt <= rate
    ensures 0 <= (b.amount + b.locked) * (rate - b.rewardDebt)
    ensures Accrued(b, rate) == (b.amount + b.locked) * (rate - b.rewardDebt) / 1_000_000_000_000_000_000
  {
    var u, x := b.amount + b.locked, rate - b.rewardDebt;
    assert Units(b) == u;
    assert u * x == x * u;
    Product(u, x);
    assert rate == b.rewardDebt ==> u * x == 0;
  }

  /** One unit and two increases of `h`, at least half a coin but not a whole
      one: settled in between it can claim nothing, left alone one coin. */
  lemma SettlingLosesACoin(h: nat, e1: Edition)
    requires 500_000_000_000_000_000 <= h < 1_000_000_000_000_000_000 && e1.rewardPerUnit == h
    ensures Claimable(Settle(Balance(1, 0, 0, 0, 0), e1), 2 * h) == 0
    ensures Claimable(Balance(1, 0, 0, 0, 0), 2 * h) == 1
  {
    hide Accrued;
    var b := Balance(1, 0, 0, 0, 0);
    AccruedAt(b, h);
    AccruedAt(b, 2 * h);
    AccruedAt(Balance(1, 0, 0, h, 0), 2 * h);
  }

  /** Moving units between free and locked never changes what any record may claim,
      at any rate: locking and unlocking need no settling. */
  lemma LockingInvisible(s: State, e: Edition, k: BalanceKey, n: nat, unlock: bool, j: BalanceKey, rate: nat)
    requires Fine(s) && LockUnits(s, e, k, n, unlock).Ok?
    ensures var t := LockUnits(s, e, k, n, unlock).value.0;
            (j in t.balances <==> j in s.balances)
            && (j in s.balances ==> Claimable(t.balances[j], rate) == Claimable(s.balances[j], rate)
                                    && t.balances[j].unclaimed == s.balances[j].unclaimed
                                    && t.balances[j].rewardDebt == s.balances[j].rewardDebt)
  {
    var b := s.balances[k];
    assert RecordFine(b, Rate(s, k));
    var b1 := if unlock then b.(locked := b.locked - n, amount := b.amount + n) else b.(amount := b.amount - n, locked := b.locked + n);
    LockWrites(s, e, k, n, unlock, b1);
    ClaimByUnits(b, b1, rate);
  }

  lemma LockWrites(s: State, e: Edition, k: BalanceKey, n: nat, unlock: bool, b1: Balance)
    requires Fine(s) && LockUnits(s, e, k, n, unlock).Ok?
    requires var b := s.balances[k];
             b1 == if unlock then b.(locked := b.locked - n, amount := b.amount + n) else b.(amount := b.amount - n, locked := b.locked + n)
    ensures LockUnits(s, e, k, n, unlock).value.0.balances == s.balances[k := b1]
  {
    assert RecordFine(s.balances[k], Rate(s, k));
    assert Units(b1) == b1.amount + b1.locked;
  }

  lemma ClaimByUnits(b: Balance, b1: Balance, rate: nat)
    requires b1.amount + b1.locked == b.amount + b.locked
    requires b1.unclaimed == b.unclaimed && b1.rewardDebt == b.rewardDebt
    ensures Claimable(b1, rate) == Claimable(b, rate)
  {}

  // ----- the module account covers everything -----

  function PayableIn(editions: map<EditionId, Edition>): (BalanceKey, Balance) -> int {
    (k: BalanceKey, b: Balance) => if k.0 in editions then Claimable(b, editions[k.0].rewardPerUnit) else 0
  }

  function PayableOf(id: EditionId, rate: nat): (BalanceKey, Balance) -> int {
    (k: BalanceKey, b: Balance) => if k.0 == id then Claimable(b, rate) else 0
  }

  /** All the rewards claimable in one edition fit its pool. */
  lemma {:induction false} PayableBounded(m: Balances, id: EditionId, e: Edition)
    requires forall k :: k in m && k.0 == id ==> RecordFine(m[k], e.rewardPerUnit)
    ensures Scaled(Sum(m, PayableOf(id, e.rewardPerUnit))) <= Sum(m, ClaimIn(id, e.rewardPerUnit))
    decreases m.Keys
  {
    if m != map[] {
      var k :| k in m;
      SumSplit(m, PayableOf(id, e.rewardPerUnit), k);
      SumSplit(m, ClaimIn(id, e.rewardPerUnit), k);
      PayableBounded(m - {k}, id, e);
      if k.0 == id { SettleLoss(m[k], e); }
    }
  }

  lemma {:induction false} PoolsCover(m: Balances, editions: map<EditionId, Edition>, pool: map<EditionId, int>)
    requires pool.Keys <= editions.Keys
    requires forall id :: id in editions ==>
      Sum(m, PayableOf(id, editions[id].rewardPerUnit)) <= (if id in pool then pool[id] else 0)
    ensures Sum(m, PayableIn(editions)) <= Sum(pool, PoolOf())
    decreases editions.Keys
  {
    if editions == map[] {
      AllZero(m, PayableIn(editions));
      assert pool == map[];
    } else {
      var id :| id in editions;
      var rest := editions - {id};
      PoolsCover(m, rest, pool - {id});
      SumLinear(m, PayableIn(rest), PayableIn(editions), PayableOf(id, editions[id].rewardPerUnit), 1);
      SumDrop(pool, PoolOf(), id);
    }
  }

  /** In every reachable state the module account holds at least every record
      deposit, every escrow and everything every holder can claim. */
  lemma AccountCoversAll(wallets: map<Address, nat>, ops: seq<Op>)
    ensures var s := Run(Genesis(wallets), ops);
            Sum(s.balances, DepositOf()) + Sum(s.pending, EscrowOf()) + Sum(s.balances, PayableIn(s.editions)) <= s.coins.pot
  {
    var s := Run(Genesis(wallets), ops);
    RunKeeps(wallets, ops);
    InvFine(s);
    PoolsSolvent(s);
    PoolsCover(s.balances, s.editions, s.coins.pool);
  }

  lemma PoolsSolvent(s: State)
    requires Inv(s) && Fine(s)
    ensures forall id :: id in s.editions ==>
      Sum(s.balances, PayableOf(id, s.editions[id].rewardPerUnit)) <= Pool(s.coins, id)
  {
    forall id | id in s.editions
      ensures Sum(s.balances, PayableOf(id, s.editions[id].rewardPerUnit)) <= Pool(s.coins, id)
    {
      InvSettled(s, id);
      PayableBounded(s.balances, id, s.editions[id]);
    }
  }
}
