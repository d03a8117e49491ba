/** The keeper's stores updated in place, in the order the chain updates them.
    Every method is held to the ledger function of the same name: it reports
    success exactly when that function does and leaves exactly its stores. A
    failed primitive may leave stores half written, as on the chain; `Deliver`
    is the transaction around it and puts them back. */
module Keeper {
  import L = Ledger
  import LedgerInvariant
  import LedgerMessages

  type Address = L.Address

  class UnitKeeper {
    var editions: map<L.EditionId, L.Edition>
    var balances: map<L.BalanceKey, L.Balance>
    var byOwner: set<(Address, L.EditionId)>
    var pending: map<nat, L.Pending>
    var pendingSeq: nat
    var listings: map<nat, L.Listing>
    var listingSeq: nat
    var coins: L.Coins

    ghost function Stores(): (s: L.State)
      reads this
    {
      L.State(editions, balances, byOwner, pending, pendingSeq, listings, listingSeq, coins)
    }

    constructor (wallets: map<Address, nat>)
      ensures Stores() == L.Genesis(wallets)
      ensures LedgerInvariant.Inv(Stores())
    {
      hide LedgerInvariant.Inv;
      editions, balances, byOwner := map[], map[], {};
      pending, pendingSeq, listings, listingSeq := map[], 0, map[], 0;
      coins := L.Coins(wallets, 0, 0, map[], map[]);
      new;
      LedgerMessages.RunKeeps(wallets, []);
      assert L.Run(L.Genesis(wallets), []) == Stores();
    }

    method Refund(to: Address, n: nat) returns (ok: bool)
      modifies this`coins
      ensures ok == L.Refund(old(coins), to, n).Ok?
      ensures ok ==> coins == L.Refund(old(coins), to, n).value
    {
      ok := n == 0 || n <= coins.pot;
      if ok && n != 0 {
        coins := coins.(wallets := coins.wallets[to := L.Wallet(coins, to) + n], pot := coins.pot - n);
      }
    }

    method Collect(from: Address, n: nat) returns (ok: bool)
      modifies this`coins
      ensures ok == L.Collect(old(coins), from, n).Ok?
      ensures ok ==> coins == L.Collect(old(coins), from, n).value
    {
      ok := n == 0 || n <= L.Wallet(coins, from);
      if ok && n != 0 {
        coins := coins.(wallets := coins.wallets[from := L.Wallet(coins, from) - n], pot := coins.pot + n);
      }
    }

    method BurnFrom(from: Address, n: nat) returns (ok: bool)
      modifies this`coins
      ensures ok == L.BurnFrom(old(coins), from, n).Ok?
      ensures ok ==> coins == L.BurnFrom(old(coins), from, n).value
    {
      ok := Collect(from, n);
      ok := ok && n <= coins.pot;
      if ok {
        coins := coins.(pot := coins.pot - n, burnt := coins.burnt + n);
      }
    }

    method WriteBalance(e: L.Edition, k: L.BalanceKey, b: L.Balance) returns (ok: bool, e1: L.Edition)
      modifies this`balances, this`byOwner, this`coins
      ensures ok == L.WriteBalance(old(Stores()), e, k, b).Ok?
      ensures ok ==> (Stores(), e1) == L.WriteBalance(old(Stores()), e, k, b).value
    {
      ok, e1 := true, e;
      if L.Units(b) == 0 {
        if k !in balances { return; }
        balances := balances - {k};
        byOwner := byOwner - {(k.1, k.0)};
        e1 := e.(holders := L.Wrap(e.holders - 1));
        ok := Refund(k.1, b.deposit);
        if !ok { return; }
        ok := Refund(k.1, b.unclaimed);
        if !ok { return; }
        coins := coins.(pool := coins.pool[k.0 := L.Pool(coins, k.0) - b.unclaimed],
                        rewarded := coins.rewarded[k := L.Rewarded(coins, k) + b.unclaimed]);
      } else {
        if k !in balances {
          e1 := e.(holders := L.Wrap(e.holders + 1));
        }
        byOwner := byOwner + {(k.1, k.0)};
        balances := balances[k := b];
      }
    }

    method Credit(e: L.Edition, k: L.BalanceKey, amount: nat, f: L.Funding) returns (ok: bool, e1: L.Edition)
      modifies this`balances, this`byOwner, this`coins
      ensures ok == L.Credit(old(Stores()), e, k, amount, f).Ok?
      ensures ok ==> (Stores(), e1) == L.Credit(old(Stores()), e, k, amount, f).value
    {
      var b := L.GetBalance(L.State(editions, balances, byOwner, pending, pendingSeq, listings, listingSeq, coins), k);
      ok, e1 := true, e;
      if k in balances {
        b := L.Settle(b, e);
        if f.Escrowed? {
          ok := Refund(f.escrowFrom, f.escrow);
        }
      } else if f.Escrowed? {
        b := b.(deposit := f.escrow, rewardDebt := e.rewardPerUnit);
      } else {
        ok := Collect(f.payer, f.tokenDeposit);
        b := b.(deposit := f.tokenDeposit, rewardDebt := e.rewardPerUnit);
      }
      var total := L.AddUnits(b.amount, amount);
      ok := ok && total.Ok?;
      if ok {
        ok, e1 := WriteBalance(e, k, b.(amount := total.value));
      }
    }

    method Debit(e: L.Edition, k: L.BalanceKey, amount: nat, fromLocked: bool) returns (ok: bool, e1: L.Edition)
      modifies this`balances, this`byOwner, this`coins
      ensures ok == L.Debit(old(Stores()), e, k, amount, fromLocked).Ok?
      ensures ok ==> (Stores(), e1) == L.Debit(old(Stores()), e, k, amount, fromLocked).value
    {
      e1 := e;
      ok := k in balances && amount <= if fromLocked then balances[k].locked else balances[k].amount;
      if ok {
        var b := L.Settle(balances[k], e);
        if fromLocked {
          b := b.(locked := b.locked - amount);
        } else {
          b := b.(amount := b.amount - amount);
        }
        ok, e1 := WriteBalance(e, k, b);
      }
    }

    method LockUnits(e: L.Edition, k: L.BalanceKey, amount: nat, unlock: bool) returns (ok: bool, e1: L.Edition)
      modifies this`balances, this`byOwner, this`coins
      ensures ok == L.LockUnits(old(Stores()), e, k, amount, unlock).Ok?
      ensures ok ==> (Stores(), e1) == L.LockUnits(old(Stores()), e, k, amount, unlock).value
    {
      e1 := e;
      ok := k in balances && amount <= if unlock then balances[k].locked else balances[k].amount;
      if ok {
        var b := balances[k];
        var total := L.AddUnits(if unlock then b.amount else b.locked, amount);
        ok := total.Ok?;
        if ok {
          if unlock {
            b := b.(locked := b.locked - amount, amount := total.value);
          } else {
            b := b.(amount := b.amount - amount, locked := total.value);
          }
          ok, e1 := WriteBalance(e, k, b);
        }
      }
    }

    method ParkUnits(kind: L.Kind, id: L.EditionId, payer: Address, from: Address, to: Address, amount: nat, t: L.Terms)
      returns (ok: bool, pid: nat)
      modifies this`pending, this`pendingSeq, this`coins
      ensures ok == L.ParkUnits(old(Stores()), kind, id, payer, from, to, amount, t).Ok?
      ensures ok ==> (Stores(), pid) == L.ParkUnits(old(Stores()), kind, id, payer, from, to, amount, t).value
    {
      ok, pid := t.slotFree, 0;
      if !ok { return; }
      ok := BurnFrom(payer, t.inboxFee);
      if !ok { return; }
      ok := Collect(payer, t.tokenDeposit);
      if !ok { return; }
      pendingSeq := pendingSeq + 1;
      pid := pendingSeq;
      pending := pending[pid := L.Pending(kind, id, from, to, amount, t.tokenDeposit)];
    }

    method MintUnitsTo(e: L.Edition, id: L.EditionId, minter: Address, recipient: Address, amount: nat, direct: bool, t: L.Terms)
      returns (ok: bool, e1: L.Edition)
      modifies this`balances, this`byOwner, this`coins, this`pending, this`pendingSeq
      ensures ok == L.MintUnitsTo(old(Stores()), e, id, minter, recipient, amount, direct, t).Ok?
      ensures ok ==> (Stores(), e1) == L.MintUnitsTo(old(Stores()), e, id, minter, recipient, amount, direct, t).value
    {
      hide L.Credit, L.ParkUnits;
      ok, e1 := amount != 0, e;
      if !ok { return; }
      if direct {
        ok, e1 := Credit(e, (id, recipient), amount, L.PaidBy(minter, t.tokenDeposit));
        if !ok { return; }
        var supply := L.AddUnits(e1.supply, amount);
        ok := supply.Ok?;
        if ok { e1 := e1.(supply := supply.value); }
      } else {
        var pid;
        ok, pid := ParkUnits(L.UnitMint, id, minter, minter, recipient, amount, t);
        if !ok { return; }
        var reserved := L.AddUnits(e1.reserved, amount);
        ok := reserved.Ok?;
        if ok { e1 := e1.(reserved := reserved.value); }
      }
    }

    method ResolvePendingUnits(pid: nat, outcome: L.Outcome) returns (ok: bool)
      modifies this
      ensures ok == L.ResolvePendingUnits(old(Stores()), pid, outcome).Ok?
      ensures ok ==> Stores() == L.ResolvePendingUnits(old(Stores()), pid, outcome).value
    {
      hide L.Credit, L.Debit, L.LockUnits, L.Refund;
      ok := pid in pending;
      if !ok { return; }
      var pu := pending[pid];
      pending := pending - {pid};
      ok := pu.edition in editions;
      if !ok { return; }
      var e := editions[pu.edition];
      var mint := pu.kind == L.UnitMint;
      if mint {
        e := e.(reserved := L.Wrap(e.reserved - pu.amount));
      }
      if outcome == L.Accepted {
        if !mint {
          ok, e := Debit(e, (pu.edition, pu.from), pu.amount, true);
          if !ok { return; }
        } else {
          var supply := L.AddUnits(e.supply, pu.amount);
          ok := supply.Ok?;
          if !ok { return; }
          e := e.(supply := supply.value);
        }
        ok, e := Credit(e, (pu.edition, pu.to), pu.amount, L.Escrowed(pu.deposit, pu.from));
        if !ok { return; }
      } else {
        if !mint {
          ok, e := LockUnits(e, (pu.edition, pu.from), pu.amount, true);
          if !ok { return; }
        }
        ok := Refund(pu.from, pu.deposit);
        if !ok { return; }
      }
      editions := editions[pu.edition := e];
    }

    method RemoveUnitListing(lid: nat) returns (ok: bool)
      modifies this
      ensures ok == L.RemoveUnitListing(old(Stores()), lid).Ok?
      ensures ok ==> Stores() == L.RemoveUnitListing(old(Stores()), lid).value
    {
      hide L.LockUnits;
      ok := lid in listings;
      if !ok { return; }
      var l := listings[lid];
      listings := listings - {lid};
      if l.quantity > 0 {
        ok := l.edition in editions;
        if !ok { return; }
        var e := editions[l.edition];
        ok, e := LockUnits(e, (l.edition, l.seller), l.quantity, true);
        if !ok { return; }
        editions := editions[l.edition := e];
      }
    }

    method BurnUnits(op: L.Op) returns (ok: bool)
      requires op.BurnUnits?
      modifies this
      ensures ok == L.ApplyBurn(old(Stores()), op).Ok?
      ensures ok ==> Stores() == L.ApplyBurn(old(Stores()), op).value
    {
      hide L.Debit;
      ok := op.id in editions && op.amount != 0;
      if !ok { return; }
      var e := editions[op.id];
      ok, e := Debit(e, (op.id, op.holder), op.amount, false);
      if !ok { return; }
      e := e.(supply := L.Wrap(e.supply - op.amount));
      var burned := L.AddUnits(e.burned, op.amount);
      ok := burned.Ok?;
      if !ok { return; }
      editions := editions[op.id := e.(burned := burned.value)];
    }

    method MintUnits(op: L.Op) returns (ok: bool)
      requires op.MintUnits?
      modifies this
      ensures ok == L.ApplyMint(old(Stores()), op).Ok?
      ensures ok ==> Stores() == L.ApplyMint(old(Stores()), op).value
    {
      hide L.MintUnitsTo;
      ok := op.id in editions && forall i :: 0 <= i < |op.entries| ==> op.entries[i].amount < L.TWO64;
      if !ok { return; }
      var e := editions[op.id];
      var total: nat := 0;
      var i := 0;
      while i < |op.entries|
        invariant 0 <= i <= |op.entries| && Stores() == old(Stores())
        invariant L.BatchTotal(op.entries, 0) == L.BatchTotal(op.entries[i..], total)
      {
        total := L.Wrap(total + op.entries[i].amount);
        if op.entries[i].amount == 0 || total < op.entries[i].amount {
          ok := false;
          return;
        }
        i := i + 1;
      }
      ok := L.CheckUnitSupply(e, total).Ok?;
      if !ok { return; }
      i := 0;
      ghost var goal := L.MintEach(Stores(), e, op.id, op.minter, op.entries, op.tokenDeposit, op.inboxFee);
      while i < |op.entries|
        invariant 0 <= i <= |op.entries|
        invariant goal == L.MintEach(Stores(), e, op.id, op.minter, op.entries[i..], op.tokenDeposit, op.inboxFee)
      {
        var x := op.entries[i];
        ok, e := MintUnitsTo(e, op.id, op.minter, x.recipient, x.amount, x.direct,
                             L.Terms(op.tokenDeposit, op.inboxFee, x.slotFree));
        if !ok { return; }
        i := i + 1;
      }
      editions := editions[op.id := e];
    }

    method CreateEdition(op: L.Op) returns (ok: bool)
      requires op.CreateEdition?
      modifies this
      ensures ok == L.ApplyCreate(old(Stores()), op).Ok?
      ensures ok ==> Stores() == L.ApplyCreate(old(Stores()), op).value
    {
      hide L.BurnFrom;
      ok := op.id !in editions && op.maxSupply <= L.HARD_MAX;
      if !ok { return; }
      ok := BurnFrom(op.creator, op.fee);
      if !ok { return; }
      editions := editions[op.id := L.Edition(0, 0, 0, 0, op.maxSupply, 0)];
    }

    method TransferUnits(op: L.Op) returns (ok: bool)
      requires op.TransferUnits?
      modifies this
      ensures ok == L.ApplyTransfer(old(Stores()), op).Ok?
      ensures ok ==> Stores() == L.ApplyTransfer(old(Stores()), op).value
    {
      hide L.Debit, L.Credit, L.LockUnits, L.ParkUnits;
      ok := op.id in editions && op.amount != 0;
      if !ok { return; }
      var e := editions[op.id];
      if op.direct {
        ok, e := Debit(e, (op.id, op.holder), op.amount, false);
        if !ok { return; }
        ok, e := Credit(e, (op.id, op.to), op.amount, L.PaidBy(op.sender, op.terms.tokenDeposit));
        if !ok { return; }
      } else {
        ok, e := LockUnits(e, (op.id, op.holder), op.amount, false);
        if !ok { return; }
        var pid;
        ok, pid := ParkUnits(L.UnitTransfer, op.id, op.sender, op.holder, op.to, op.amount, op.terms);
        if !ok { return; }
      }
      editions := editions[op.id := e];
    }

    method ListUnits(op: L.Op) returns (ok: bool)
      requires op.ListUnits?
      modifies this
      ensures ok == L.ApplyList(old(Stores()), op).Ok?
      ensures ok ==> Stores() == L.ApplyList(old(Stores()), op).value
    {
      hide L.LockUnits;
      ok := op.id in editions && op.amount != 0;
      if !ok { return; }
      var e := editions[op.id];
      ok, e := LockUnits(e, (op.id, op.seller), op.amount, false);
      if !ok { return; }
      listingSeq := listingSeq + 1;
      listings := listings[listingSeq := L.Listing(op.id, op.seller, op.amount)];
      editions := editions[op.id := e];
    }

    method UpdateUnitListing(op: L.Op) returns (ok: bool)
      requires op.UpdateUnitListing?
      modifies this
      ensures ok == L.ApplyUpdateListing(old(Stores()), op).Ok?
      ensures ok ==> Stores() == L.ApplyUpdateListing(old(Stores()), op).value
    {
      hide L.LockUnits;
      ok := op.listing in listings && op.amount != 0 && listings[op.listing].edition in editions;
      if !ok { return; }
      var l := listings[op.listing];
      var e := editions[l.edition];
      if op.amount > l.quantity {
        ok, e := LockUnits(e, (l.edition, l.seller), op.amount - l.quantity, false);
      } else if op.amount < l.quantity {
        ok, e := LockUnits(e, (l.edition, l.seller), l.quantity - op.amount, true);
      }
      if !ok { return; }
      editions := editions[l.edition := e];
      listings := listings[op.listing := l.(quantity := op.amount)];
    }

    method BuyUnits(op: L.Op) returns (ok: bool)
      requires op.BuyUnits?
      modifies this
      ensures ok == L.ApplyBuy(old(Stores()), op).Ok?
      ensures ok ==> Stores() == L.ApplyBuy(old(Stores()), op).value
    {
      hide L.Debit, L.Credit, L.RemoveUnitListing;
      ok := op.listing in listings && listings[op.listing].edition in editions
            && op.amount != 0 && op.amount <= listings[op.listing].quantity;
      if !ok { return; }
      var l := listings[op.listing];
      var e := editions[l.edition];
      ok, e := Debit(e, (l.edition, l.seller), op.amount, true);
      if !ok { return; }
      ok, e := Credit(e, (l.edition, op.buyer), op.amount, L.PaidBy(op.buyer, op.tokenDeposit));
      if !ok { return; }
      editions := editions[l.edition := e];
      var rest := l.quantity - op.amount;
      listings := listings[op.listing := l.(quantity := rest)];
      if rest == 0 {
        ok := RemoveUnitListing(op.listing);
      }
    }

    method FundEdition(op: L.Op) returns (ok: bool)
      requires op.FundEdition?
      modifies this
      ensures ok == L.ApplyFund(old(Stores()), op).Ok?
      ensures ok ==> Stores() == L.ApplyFund(old(Stores()), op).value
    {
      hide L.Collect, L.RewardPerUnitDelta;
      ok := op.id in editions && editions[op.id].supply != 0;
      if !ok { return; }
      var e := editions[op.id];
      var delta := L.RewardPerUnitDelta(op.amount, e.supply);
      ok := delta != 0;
      if !ok { return; }
      ok := Collect(op.funder, op.amount);
      if !ok { return; }
      coins := coins.(pool := coins.pool[op.id := L.Pool(coins, op.id) + op.amount]);
      editions := editions[op.id := e.(rewardPerUnit := e.rewardPerUnit + delta)];
    }

    method ClaimEditionRewards(op: L.Op) returns (ok: bool)
      requires op.ClaimRewards?
      modifies this
      ensures ok == L.ApplyClaim(old(Stores()), op).Ok?
      ensures ok ==> Stores() == L.ApplyClaim(old(Stores()), op).value
    {
      hide L.WriteBalance, L.Refund, L.Settle;
      var k := (op.id, op.holder);
      ok := op.id in editions && k in balances;
      if !ok { return; }
      var b := L.Settle(balances[k], editions[op.id]);
      var e;
      ok, e := WriteBalance(editions[op.id], k, b.(unclaimed := 0));
      if !ok { return; }
      ok := Refund(op.payee, b.unclaimed);
      if !ok { return; }
      coins := coins.(pool := coins.pool[k.0 := L.Pool(coins, k.0) - b.unclaimed],
                      rewarded := coins.rewarded[k := L.Rewarded(coins, k) + b.unclaimed]);
    }

    method SetMaxSupply(op: L.Op) returns (ok: bool)
      requires op.SetMaxSupply?
      modifies this
      ensures ok == L.ApplySetMaxSupply(old(Stores()), op).Ok?
      ensures ok ==> Stores() == L.ApplySetMaxSupply(old(Stores()), op).value
    {
      ok := op.id in editions;
      if !ok { return; }
      var e := editions[op.id];
      ok := op.maxSupply != 0 && (e.maxSupply == 0 || op.maxSupply < e.maxSupply)
            && op.maxSupply <= L.HARD_MAX && L.IssuedUnits(e) <= op.maxSupply;
      if !ok { return; }
      editions := editions[op.id := e.(maxSupply := op.maxSupply)];
    }

    method Apply(op: L.Op) returns (ok: bool)
      modifies this
      ensures ok == L.Apply(old(Stores()), op).Ok?
      ensures ok ==> Stores() == L.Apply(old(Stores()), op).value
    {
      hide L.ApplyMint, L.ApplyBurn, L.ResolvePendingUnits, L.RemoveUnitListing, L.ApplyCreate, L.ApplyTransfer, L.ApplyList;
      hide L.ApplyUpdateListing, L.ApplyBuy, L.ApplyFund, L.ApplyClaim, L.ApplySetMaxSupply;
      match op {
        case CreateEdition(_, _, _, _) => ok := CreateEdition(op);
        case MintUnits(_, _, _, _, _) => ok := MintUnits(op);
        case TransferUnits(_, _, _, _, _, _, _) => ok := TransferUnits(op);
        case ListUnits(_, _, _) => ok := ListUnits(op);
        case UpdateUnitListing(_, _) => ok := UpdateUnitListing(op);
        case DelistUnits(lid) => ok := RemoveUnitListing(lid);
        case BuyUnits(_, _, _, _) => ok := BuyUnits(op);
        case BurnUnits(_, _, _) => ok := BurnUnits(op);
        case FundEdition(_, _, _) => ok := FundEdition(op);
        case ClaimRewards(_, _, _) => ok := ClaimEditionRewards(op);
        case SetMaxSupply(_, _) => ok := SetMaxSupply(op);
        case Resolve(pid, outcome) => ok := ResolvePendingUnits(pid, outcome);
      }
    }

    /** One message as a transaction: the stores are put back when it fails. */
    method Deliver(op: L.Op) returns (ok: bool)
      modifies this
      ensures Stores() == L.Deliver(old(Stores()), op)
      ensures ok == L.Apply(old(Stores()), op).Ok?
      ensures old(LedgerInvariant.Inv(Stores())) ==> LedgerInvariant.Inv(Stores())
      ensures old(LedgerInvariant.Inv(Stores())) && op.Resolve? && op.item in old(pending) ==> ok
      ensures old(LedgerInvariant.Inv(Stores())) && op.DelistUnits? && op.listing in old(listings) ==> ok
    {
      hide LedgerInvariant.Inv, L.Apply;
      var saved := L.State(editions, balances, byOwner, pending, pendingSeq, listings, listingSeq, coins);
      ghost var before := Stores();
      ok := Apply(op);
      if !ok {
        editions, balances, byOwner := saved.editions, saved.balances, saved.byOwner;
        pending, pendingSeq, listings, listingSeq := saved.pending, saved.pendingSeq, saved.listings, saved.listingSeq;
        coins := saved.coins;
      }
      if LedgerInvariant.Inv(before) {
        LedgerMessages.ApplyKeeps(before, op);
        NeverStuck(before, op);
      }
    }
  }

  lemma NeverStuck(s: L.State, op: L.Op)
    requires LedgerInvariant.Inv(s)
    ensures op.Resolve? && op.item in s.pending ==> L.Apply(s, op).Ok?
    ensures op.DelistUnits? && op.listing in s.listings ==> L.Apply(s, op).Ok?
  {
    hide LedgerInvariant.Inv, L.ResolvePendingUnits, L.RemoveUnitListing;
    if op.Resolve? && op.item in s.pending { LedgerMessages.ResolveSucceeds(s, op.item, op.outcome); }
    if op.DelistUnits? && op.listing in s.listings { LedgerMessages.RemoveListingSucceeds(s, op.listing); }
  }
}
