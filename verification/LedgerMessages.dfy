/** Every message keeps the invariant, resolving an inbox item or removing a
    listing never fails, and both facts hold over every run. */
module LedgerMessages {
  import opened Ledger
  import opened MapSums
  import opened LedgerInvariant
  import opened LedgerSteps

  // ----- helpers over the working copy -----

  /** Moving the edition's own counters shifts the books the other way. */
  lemma Recount(s: State, id: EditionId, e: Edition, k: BalanceKey, d: Slack, e1: Edition)
    requires Near(s, id, e, k, d) && Capped(e1)
    requires e1 == e.(supply := e1.supply, burned := e1.burned, reserved := e1.reserved, maxSupply := e1.maxSupply)
    ensures Near(s, id, e1, k, d.(units := d.units + e.supply - e1.supply, reserved := d.reserved + e.reserved - e1.reserved))
  {
  }

  lemma NearFacts(s: State, id: EditionId, e: Edition, k: BalanceKey, d: Slack)
    requires Near(s, id, e, k, d)
    ensures Capped(e)
    ensures 0 <= e.supply + d.units <= HARD_MAX && 0 <= e.reserved + d.reserved
    ensures d.locked <= RecordAt(s.balances, k).locked
    ensures 0 < d.locked ==> k in s.balances
    ensures d.pot <= s.coins.pot
  {
    SumSign(s.balances, UnitsIn(id));
    SumSign(s.pending, ReservedIn(id));
    SumSign(s.pending, OutgoingOf(k));
    SumSign(s.listings, ListedBy(k));
    PotHolds(s, id, e, k, d);
  }

  lemma InvFacts(s: State)
    requires Inv(s)
    ensures forall i :: i in s.pending ==> s.pending[i].edition in s.editions && 0 < s.pending[i].amount
    ensures forall i :: i in s.listings ==> i <= s.listingSeq && s.listings[i].edition in s.editions && 0 < s.listings[i].quantity
    ensures forall id :: id in s.editions ==> Capped(s.editions[id])
  {
  }

  /** `n` more units fit under the hard ceiling and the edition's own cap. */
  ghost predicate Fits(e: Edition, n: nat) {
    && e.supply + e.burned + e.reserved + n <= HARD_MAX
    && (e.maxSupply > 0 ==> e.supply + e.burned + e.reserved + n <= e.maxSupply)
  }

  // ----- resolving an inbox item -----

  /** Taking a pending mint off the books: its units leave `reserved`, its deposit is in hand. */
  lemma DropMint(s: State, pid: nat)
    requires Inv(s) && pid in s.pending && s.pending[pid].kind == UnitMint
    ensures
      var pu := s.pending[pid];
      && pu.edition in s.editions && 0 < pu.amount
      && var e := s.editions[pu.edition];
         && Fits(e.(reserved := Wrap(e.reserved - pu.amount)), pu.amount)
         && Near(s.(pending := s.pending - {pid}), pu.edition, e.(reserved := Wrap(e.reserved - pu.amount)),
                 (pu.edition, pu.from), Slack(0, 0, 0, pu.deposit))
  {
    hide Near, Inv;
    InvFacts(s);
    var pu := s.pending[pid];
    var id, k, e := pu.edition, (pu.edition, pu.from), s.editions[pu.edition];
    var s1 := s.(pending := s.pending - {pid});
    Enter(s, id, k);
    InboxDrop(s, id, e, k, LEVEL, pid);
    var d1 := Slack(0, 0, 0 - pu.amount, pu.deposit);
    NearFacts(s1, id, e, k, d1);
    var e1 := e.(reserved := e.reserved - pu.amount);
    assert Wrap(e.reserved - pu.amount) == e1.reserved;
    Recount(s1, id, e, k, d1, e1);
  }

  lemma ResolveMint(s: State, pid: nat, outcome: Outcome)
    requires Inv(s) && pid in s.pending && s.pending[pid].kind == UnitMint
    ensures ResolvePendingUnits(s, pid, outcome).Ok? && Inv(ResolvePendingUnits(s, pid, outcome).value)
  {
    hide Near, Inv, Credit;
    DropMint(s, pid);
    var pu := s.pending[pid];
    var id, k, e0 := pu.edition, (pu.edition, pu.from), s.editions[pu.edition];
    var s1 := s.(pending := s.pending - {pid});
    var e := e0.(reserved := Wrap(e0.reserved - pu.amount));
    var d := Slack(0, 0, 0, pu.deposit);
    if outcome == Accepted {
      var e1 := e.(supply := e.supply + pu.amount);
      Recount(s1, id, e, k, d, e1);
      var f := Escrowed(pu.deposit, pu.from);
      CreditKeeps(s1, id, e1, k, Slack(0 - pu.amount, 0, 0, pu.deposit), pu.to, pu.amount, f);
      var (s3, e3) := Credit(s1, e1, (id, pu.to), pu.amount, f).value;
      Leave(s3, id, e3, k);
      assert AddUnits(e.supply, pu.amount) == Ok(e1.supply);
    } else {
      RefundLeaves(s1, id, e, k, d, pu.from);
    }
  }

  /** Paying back exactly what the pot has too much closes the books. */
  lemma RefundLeaves(s: State, id: EditionId, e: Edition, k: BalanceKey, d: Slack, to: Address)
    requires Near(s, id, e, k, d) && d.units == d.locked == d.reserved == 0 && 0 <= d.pot
    ensures Refund(s.coins, to, d.pot).Ok?
    ensures Inv(SaveEdition(s.(coins := Refund(s.coins, to, d.pot).value), id, e))
  {
    hide Near, Inv;
    NearFacts(s, id, e, k, d);
    var c := Refund(s.coins, to, d.pot).value;
    CoinsMoved(s, id, e, k, d, c);
    Leave(s.(coins := c), id, e, k);
  }

  lemma ResolveTransfer(s: State, pid: nat, outcome: Outcome)
    requires Inv(s) && pid in s.pending && s.pending[pid].kind == UnitTransfer
    ensures ResolvePendingUnits(s, pid, outcome).Ok? && Inv(ResolvePendingUnits(s, pid, outcome).value)
  {
    hide Near, Inv, Debit, Credit, LockUnits;
    InvFacts(s);
    var pu := s.pending[pid];
    var id := pu.edition;
    var k := (id, pu.from);
    var e := s.editions[id];
    var s1 := s.(pending := s.pending - {pid});
    Enter(s, id, k);
    InboxDrop(s, id, e, k, LEVEL, pid);
    var d1 := Slack(0, pu.amount, 0, pu.deposit);
    NearFacts(s1, id, e, k, d1);
    if outcome == Accepted {
      DebitKeeps(s1, id, e, pu.from, d1, pu.amount, true);
      var (s2, e2) := Debit(s1, e, k, pu.amount, true).value;
      var d2 := Slack(0 - pu.amount, 0, 0, pu.deposit);
      NearFacts(s2, id, e2, k, d2);
      var f := Escrowed(pu.deposit, pu.from);
      CreditKeeps(s2, id, e2, k, d2, pu.to, pu.amount, f);
      var (s3, e3) := Credit(s2, e2, (id, pu.to), pu.amount, f).value;
      Leave(s3, id, e3, k);
    } else {
      LockKeeps(s1, id, e, pu.from, d1, pu.amount, true);
      var (s2, e2) := LockUnits(s1, e, k, pu.amount, true).value;
      RefundLeaves(s2, id, e2, k, Slack(0, 0, 0, pu.deposit), pu.from);
    }
  }

  /** Nothing in an inbox can get stuck: any item resolves, with any outcome. */
  lemma ResolveSucceeds(s: State, pid: nat, outcome: Outcome)
    requires Inv(s) && pid in s.pending
    ensures ResolvePendingUnits(s, pid, outcome).Ok?
    ensures Inv(ResolvePendingUnits(s, pid, outcome).value)
  {
    hide Inv;
    if s.pending[pid].kind == UnitMint {
      ResolveMint(s, pid, outcome);
    } else {
      ResolveTransfer(s, pid, outcome);
    }
  }

  // ----- listings -----

  /** Any listing can be removed and its units come back. */
  lemma RemoveListingSucceeds(s: State, lid: nat)
    requires Inv(s) && lid in s.listings
    ensures RemoveUnitListing(s, lid).Ok?
    ensures Inv(RemoveUnitListing(s, lid).value)
  {
    hide Near, Inv;
    InvFacts(s);
    var l := s.listings[lid];
    var id := l.edition;
    var k := (id, l.seller);
    var s1 := s.(listings := s.listings - {lid});
    Enter(s, id, k);
    MarketDrop(s, id, s.editions[id], k, LEVEL, lid);
    var d1 := Slack(0, l.quantity, 0, 0);
    NearFacts(s1, id, s.editions[id], k, d1);
    LockKeeps(s1, id, s.editions[id], l.seller, d1, l.quantity, true);
    var (s2, e2) := LockUnits(s1, s.editions[id], k, l.quantity, true).value;
    Leave(s2, id, e2, k);
  }

  lemma ListKeeps(s: State, op: Op)
    requires Inv(s) && op.ListUnits?
    ensures ApplyList(s, op).Ok? ==> Inv(ApplyList(s, op).value)
  {
    hide Near, Inv;
    if ApplyList(s, op).Ok? {
      InvFacts(s);
      var id, k, e := op.id, (op.id, op.seller), s.editions[op.id];
      Enter(s, id, k);
      LockKeeps(s, id, e, op.seller, LEVEL, op.amount, false);
      var (s1, e1) := LockUnits(s, e, k, op.amount, false).value;
      var lid := s1.listingSeq + 1;
      LockFrame(s, e, k, op.amount, false);
      MarketPut(s1, id, e1, k, Slack(0, op.amount, 0, 0), lid, op.amount, lid);
      var s2 := s1.(listings := s1.listings[lid := Listing(id, op.seller, op.amount)], listingSeq := lid);
      Leave(s2, id, e1, k);
    }
  }

  /** A write leaves both item books alone. */
  lemma WriteFrame(s: State, e: Edition, k: BalanceKey, b: Balance)
    ensures WriteBalance(s, e, k, b).Ok? ==>
      var (t, e1) := WriteBalance(s, e, k, b).value;
      t.listings == s.listings && t.listingSeq == s.listingSeq && t.pending == s.pending
      && t.pendingSeq == s.pendingSeq && t.editions == s.editions && e1 == e.(holders := e1.holders)
  {}

  lemma LockFrame(s: State, e: Edition, k: BalanceKey, amount: nat, unlock: bool)
    ensures LockUnits(s, e, k, amount, unlock).Ok? ==>
      var (t, e1) := LockUnits(s, e, k, amount, unlock).value;
      t.listings == s.listings && t.listingSeq == s.listingSeq && t.pending == s.pending
      && t.pendingSeq == s.pendingSeq && t.editions == s.editions && e1 == e.(holders := e1.holders)
  {
    hide WriteBalance;
    forall b: Balance {
      WriteFrame(s, e, k, b);
    }
  }

  lemma RelockKeeps(s: State, id: EditionId, e: Edition, a: Address, was: nat, wanted: nat)
    requires Near(s, id, e, (id, a), LEVEL)
    ensures Relock(s, e, (id, a), was, wanted).Ok? ==>
      var (t, e1) := Relock(s, e, (id, a), was, wanted).value;
      && Near(t, id, e1, (id, a), Slack(0, wanted - was, 0, 0))
      && t.listings == s.listings && t.listingSeq == s.listingSeq && t.editions == s.editions
  {
    hide Near, LockUnits;
    if wanted > was {
      LockKeeps(s, id, e, a, LEVEL, wanted - was, false);
      LockFrame(s, e, (id, a), wanted - was, false);
    } else if wanted < was {
      LockKeeps(s, id, e, a, LEVEL, was - wanted, true);
      LockFrame(s, e, (id, a), was - wanted, true);
    }
  }

  lemma UpdateListingKeeps(s: State, op: Op)
    requires Inv(s) && op.UpdateUnitListing?
    ensures ApplyUpdateListing(s, op).Ok? ==> Inv(ApplyUpdateListing(s, op).value)
  {
    hide Near, Inv, Relock;
    if ApplyUpdateListing(s, op).Ok? {
      InvFacts(s);
      var l := s.listings[op.listing];
      var id, k, e := l.edition, (l.edition, l.seller), s.editions[l.edition];
      Enter(s, id, k);
      RelockKeeps(s, id, e, l.seller, l.quantity, op.amount);
      var (s1, e1) := Relock(s, e, k, l.quantity, op.amount).value;
      MarketPut(s1, id, e1, k, Slack(0, op.amount - l.quantity, 0, 0), op.listing, op.amount, s1.listingSeq);
      var s2 := s1.(listings := s1.listings[op.listing := Listing(id, l.seller, op.amount)]);
      assert s2 == s2.(listingSeq := s1.listingSeq);
      Leave(s2, id, e1, k);
      assert ApplyUpdateListing(s, op).value == SaveEdition(s2, id, e1);
    }
  }

  // ----- selling, burning, transferring -----

  lemma DebitFrame(s: State, e: Edition, k: BalanceKey, amount: nat, fromLocked: bool)
    ensures Debit(s, e, k, amount, fromLocked).Ok? ==>
      var (t, e1) := Debit(s, e, k, amount, fromLocked).value;
      t.listings == s.listings && t.listingSeq == s.listingSeq && t.pending == s.pending
      && t.pendingSeq == s.pendingSeq && t.editions == s.editions && e1 == e.(holders := e1.holders)
  {
    hide WriteBalance;
    forall b: Balance {
      WriteFrame(s, e, k, b);
    }
  }

  lemma CreditFrame(s: State, e: Edition, k: BalanceKey, amount: nat, f: Funding)
    ensures Credit(s, e, k, amount, f).Ok? ==>
      var (t, e1) := Credit(s, e, k, amount, f).value;
      t.listings == s.listings && t.listingSeq == s.listingSeq && t.pending == s.pending
      && t.pendingSeq == s.pendingSeq && t.editions == s.editions && e1 == e.(holders := e1.holders)
  {
    hide WriteBalance, Refund, Collect;
    forall b: Balance, c: Coins {
      WriteFrame(s.(coins := c), e, k, b);
    }
  }

  lemma BuyKeeps(s: State, op: Op)
    requires Inv(s) && op.BuyUnits?
    ensures ApplyBuy(s, op).Ok? ==> Inv(ApplyBuy(s, op).value)
  {
    hide Near, Inv, Debit, Credit;
    if ApplyBuy(s, op).Ok? {
      InvFacts(s);
      var l := s.listings[op.listing];
      var id, k, e := l.edition, (l.edition, l.seller), s.editions[l.edition];
      Enter(s, id, k);
      DebitKeeps(s, id, e, l.seller, LEVEL, op.amount, true);
      DebitFrame(s, e, k, op.amount, true);
      var (s1, e1) := Debit(s, e, k, op.amount, true).value;
      var d1 := Slack(0 - op.amount, 0 - op.amount, 0, 0);
      NearFacts(s1, id, e1, k, d1);
      var f := PaidBy(op.buyer, op.tokenDeposit);
      CreditKeeps(s1, id, e1, k, d1, op.buyer, op.amount, f);
      CreditFrame(s1, e1, (id, op.buyer), op.amount, f);
      var (s2, e2) := Credit(s1, e1, (id, op.buyer), op.amount, f).value;
      var d2 := Slack(0, 0 - op.amount, 0, 0);
      if op.amount == l.quantity {
        MarketDrop(s2, id, e2, k, d2, op.listing);
        var s4 := s2.(listings := s2.listings - {op.listing});
        Leave(s4, id, e2, k);
        var sold := SaveEdition(s2, id, e2).(listings := s2.listings[op.listing := l.(quantity := 0)]);
        assert ApplyBuy(s, op) == RemoveUnitListing(sold, op.listing);
        assert sold.listings - {op.listing} == s4.listings;
      } else {
        var rest := l.(quantity := l.quantity - op.amount);
        MarketPut(s2, id, e2, k, d2, op.listing, rest.quantity, s2.listingSeq);
        var s4 := s2.(listings := s2.listings[op.listing := rest]);
        assert s4 == s4.(listingSeq := s2.listingSeq);
        Leave(s4, id, e2, k);
      }
    }
  }

  lemma BurnKeeps(s: State, op: Op)
    requires Inv(s) && op.BurnUnits?
    ensures ApplyBurn(s, op).Ok? ==> Inv(ApplyBurn(s, op).value)
  {
    hide Near, Inv, Debit;
    if ApplyBurn(s, op).Ok? {
      InvFacts(s);
      var id, k, e := op.id, (op.id, op.holder), s.editions[op.id];
      Enter(s, id, k);
      DebitKeeps(s, id, e, op.holder, LEVEL, op.amount, false);
      DebitFrame(s, e, k, op.amount, false);
      var (s1, e1) := Debit(s, e, k, op.amount, false).value;
      var d1 := Slack(0 - op.amount, 0, 0, 0);
      NearFacts(s1, id, e1, k, d1);
      var e2 := e1.(supply := e1.supply - op.amount, burned := e1.burned + op.amount);
      assert Wrap(e1.supply - op.amount) == e2.supply;
      Recount(s1, id, e1, k, d1, e2);
      Leave(s1, id, e2, k);
    }
  }

  lemma TransferKeeps(s: State, op: Op)
    requires Inv(s) && op.TransferUnits?
    ensures ApplyTransfer(s, op).Ok? ==> Inv(ApplyTransfer(s, op).value)
  {
    hide Near, Inv, Debit, Credit, LockUnits, ParkUnits;
    if ApplyTransfer(s, op).Ok? {
      var id, k, e := op.id, (op.id, op.holder), s.editions[op.id];
      Enter(s, id, k);
      if op.direct {
        DebitKeeps(s, id, e, op.holder, LEVEL, op.amount, false);
        var (s1, e1) := Debit(s, e, k, op.amount, false).value;
        var d1 := Slack(0 - op.amount, 0, 0, 0);
        NearFacts(s1, id, e1, k, d1);
        var f := PaidBy(op.sender, op.terms.tokenDeposit);
        CreditKeeps(s1, id, e1, k, d1, op.to, op.amount, f);
        var (s2, e2) := Credit(s1, e1, (id, op.to), op.amount, f).value;
        Leave(s2, id, e2, k);
      } else {
        LockKeeps(s, id, e, op.holder, LEVEL, op.amount, false);
        var (s1, e1) := LockUnits(s, e, k, op.amount, false).value;
        ParkKeeps(s1, UnitTransfer, id, e1, k, Slack(0, op.amount, 0, 0), op.sender, op.holder, op.to, op.amount, op.terms);
        var (s2, pid) := ParkUnits(s1, UnitTransfer, id, op.sender, op.holder, op.to, op.amount, op.terms).value;
        Leave(s2, id, e1, k);
      }
    }
  }

  /** The inbox fee passes through the pot; the deposit stays, against the new item. */
  lemma ParkKeeps(s: State, kind: Kind, id: EditionId, e: Edition, k: BalanceKey, d: Slack,
                  payer: Address, from: Address, to: Address, amount: nat, t: Terms)
    requires Near(s, id, e, k, d) && 0 < amount
    requires kind == UnitTransfer ==> k == (id, from)
    ensures ParkUnits(s, kind, id, payer, from, to, amount, t).Ok? ==>
      Near(ParkUnits(s, kind, id, payer, from, to, amount, t).value.0, id, e, k,
           Slack(d.units, if kind == UnitTransfer then d.locked - amount else d.locked,
                 if kind == UnitMint then d.reserved + amount else d.reserved, d.pot))
  {
    hide Near;
    if ParkUnits(s, kind, id, payer, from, to, amount, t).Ok? {
      var c1 := BurnFrom(s.coins, payer, t.inboxFee).value;
      assert c1.pot == s.coins.pot && c1.pool == s.coins.pool;
      var c2 := Collect(c1, payer, t.tokenDeposit).value;
      CoinsMoved(s, id, e, k, d, c2);
      var s1 := s.(coins := c2);
      var pid := s1.pendingSeq + 1;
      var item := Pending(kind, id, from, to, amount, t.tokenDeposit);
      InboxPut(s1, id, e, k, d.(pot := d.pot + t.tokenDeposit), pid, item);
      assert ParkUnits(s, kind, id, payer, from, to, amount, t).value.0
          == s1.(pending := s1.pending[pid := item], pendingSeq := pid);
    }
  }

  // ----- minting -----

  function TotalOf(entries: seq<Entry>): nat {
    if entries == [] then 0 else entries[0].amount + TotalOf(entries[1..])
  }

  /** A batch total that passes the check did not wrap: it is the true sum. */
  lemma {:induction false} BatchTotalExact(entries: seq<Entry>, sofar: nat)
    requires sofar < TWO64 && forall i :: 0 <= i < |entries| ==> entries[i].amount < TWO64
    requires BatchTotal(entries, sofar).Ok?
    ensures BatchTotal(entries, sofar).value == sofar + TotalOf(entries)
  {
    if entries != [] {
      var total := Wrap(sofar + entries[0].amount);
      assert total == sofar + entries[0].amount;
      BatchTotalExact(entries[1..], total);
    }
  }

  lemma MintToKeeps(s: State, e: Edition, id: EditionId, k: BalanceKey, minter: Address, to: Address,
                    amount: nat, direct: bool, t: Terms, n: nat)
    requires Near(s, id, e, k, LEVEL) && Fits(e, amount + n)
    ensures MintUnitsTo(s, e, id, minter, to, amount, direct, t).Ok? ==>
      var (s1, e1) := MintUnitsTo(s, e, id, minter, to, amount, direct, t).value;
      Near(s1, id, e1, k, LEVEL) && Fits(e1, n)
  {
    hide Near, Credit, ParkUnits;
    if MintUnitsTo(s, e, id, minter, to, amount, direct, t).Ok? {
      if direct {
        var f := PaidBy(minter, t.tokenDeposit);
        CreditKeeps(s, id, e, k, LEVEL, to, amount, f);
        CreditFrame(s, e, (id, to), amount, f);
        var (s1, e1) := Credit(s, e, (id, to), amount, f).value;
        Recount(s1, id, e1, k, Slack(amount, 0, 0, 0), e1.(supply := e1.supply + amount));
      } else {
        ParkKeeps(s, UnitMint, id, e, k, LEVEL, minter, minter, to, amount, t);
        var (s1, pid) := ParkUnits(s, UnitMint, id, minter, minter, to, amount, t).value;
        Recount(s1, id, e, k, Slack(0, 0, amount, 0), e.(reserved := e.reserved + amount));
      }
    }
  }

  lemma {:induction false} MintEachKeeps(s: State, e: Edition, id: EditionId, k: BalanceKey, minter: Address,
                                         entries: seq<Entry>, tokenDeposit: nat, inboxFee: nat)
    requires Near(s, id, e, k, LEVEL) && Fits(e, TotalOf(entries))
    ensures MintEach(s, e, id, minter, entries, tokenDeposit, inboxFee).Ok? ==>
      var (s1, e1) := MintEach(s, e, id, minter, entries, tokenDeposit, inboxFee).value;
      Near(s1, id, e1, k, LEVEL)
    decreases |entries|
  {
    hide Near, MintUnitsTo;
    if entries != [] {
      var x := entries[0];
      var t := Terms(tokenDeposit, inboxFee, x.slotFree);
      MintToKeeps(s, e, id, k, minter, x.recipient, x.amount, x.direct, t, TotalOf(entries[1..]));
      if MintUnitsTo(s, e, id, minter, x.recipient, x.amount, x.direct, t).Ok? {
        var (s1, e1) := MintUnitsTo(s, e, id, minter, x.recipient, x.amount, x.direct, t).value;
        MintEachKeeps(s1, e1, id, k, minter, entries[1..], tokenDeposit, inboxFee);
      }
    }
  }

  lemma MintKeeps(s: State, op: Op)
    requires Inv(s) && op.MintUnits?
    ensures ApplyMint(s, op).Ok? ==> Inv(ApplyMint(s, op).value)
  {
    hide Near, Inv, MintEach;
    if ApplyMint(s, op).Ok? {
      InvFacts(s);
      var id, k, e := op.id, (op.id, op.minter), s.editions[op.id];
      Enter(s, id, k);
      BatchTotalExact(op.entries, 0);
      assert IssuedUnits(e) == e.supply + e.burned + e.reserved;
      MintEachKeeps(s, e, id, k, op.minter, op.entries, op.tokenDeposit, op.inboxFee);
      var (s1, e1) := MintEach(s, e, id, op.minter, op.entries, op.tokenDeposit, op.inboxFee).value;
      Leave(s1, id, e1, k);
    }
  }

  // ----- funding, claiming, caps, new editions -----

  /** A payment over `supply` units raises every unit's claim by no more than was paid. */
  lemma DeltaCovered(amount: nat, supply: nat)
    requires 0 < supply
    ensures RewardPerUnitDelta(amount, supply) * supply <= Scaled(amount)
  {
    var x := Scaled(amount);
    assert x / supply * supply <= x;
  }

  lemma FundCounted(m: Balances, inbox: Inbox, pool: int, id: EditionId, e: Edition, amount: nat, delta: nat)
    requires SettledOn(e, m, inbox, pool, id) && delta * e.supply <= Scaled(amount)
    ensures SettledOn(e.(rewardPerUnit := e.rewardPerUnit + delta), m, inbox, pool + amount, id)
  {
    FundClaims(m, id, e.rewardPerUnit, delta);
  }

  /** An edition with a higher rate and more coins in its pool, both already balanced. */
  lemma FundState(s: State, id: EditionId, e1: Edition, amount: nat, c: Coins)
    requires Inv(s) && id in s.editions && s.editions[id].rewardPerUnit <= e1.rewardPerUnit
    requires SettledOn(e1, s.balances, s.pending, Pool(s.coins, id) + amount, id)
    requires c.pot == s.coins.pot + amount && c.pool == s.coins.pool[id := Pool(s.coins, id) + amount]
    ensures Inv(s.(editions := s.editions[id := e1], coins := c))
  {
    hide Sum, SettledOn;
    SumPut(s.coins.pool, PoolOf(), id, Pool(s.coins, id) + amount);
  }

  lemma FundKeeps(s: State, op: Op)
    requires Inv(s) && op.FundEdition?
    ensures ApplyFund(s, op).Ok? ==> Inv(ApplyFund(s, op).value)
  {
    hide Inv, SettledOn;
    if ApplyFund(s, op).Ok? {
      FundShape(s, op);
      var e := s.editions[op.id];
      var delta := RewardPerUnitDelta(op.amount, e.supply);
      DeltaCovered(op.amount, e.supply);
      InvSettled(s, op.id);
      FundCounted(s.balances, s.pending, Pool(s.coins, op.id), op.id, e, op.amount, delta);
      FundState(s, op.id, e.(rewardPerUnit := e.rewardPerUnit + delta), op.amount, ApplyFund(s, op).value.coins);
    }
  }

  lemma InvSettled(s: State, id: EditionId)
    requires Inv(s) && id in s.editions
    ensures SettledOn(s.editions[id], s.balances, s.pending, Pool(s.coins, id), id)
  {}

  lemma FundShape(s: State, op: Op)
    requires op.FundEdition? && ApplyFund(s, op).Ok?
    ensures
      var t, e := ApplyFund(s, op).value, s.editions[op.id];
      var e1 := e.(rewardPerUnit := e.rewardPerUnit + RewardPerUnitDelta(op.amount, e.supply));
      && t == s.(editions := s.editions[op.id := e1], coins := t.coins)
      && t.coins.pot == s.coins.pot + op.amount
      && t.coins.pool == s.coins.pool[op.id := Pool(s.coins, op.id) + op.amount]
      && t.coins.rewarded == s.coins.rewarded
  {}

  lemma ExactClaimGrows(b: Balance, rate: nat, delta: nat)
    ensures ExactClaim(b, rate + delta) == ExactClaim(b, rate) + delta * (b.amount + b.locked)
  {
    var u, x := b.amount + b.locked, rate - b.rewardDebt;
    assert u * (x + delta) == u * x + delta * u;
    assert rate + delta - b.rewardDebt == x + delta;
  }

  lemma FundClaims(m: Balances, id: EditionId, rate: nat, delta: nat)
    ensures Sum(m, ClaimIn(id, rate + delta)) == Sum(m, ClaimIn(id, rate)) + delta * Sum(m, UnitsIn(id))
  {
    hide ExactClaim;
    forall k | k in m
      ensures ClaimIn(id, rate + delta)(k, m[k]) == ClaimIn(id, rate)(k, m[k]) + delta * UnitsIn(id)(k, m[k])
    {
      ExactClaimGrows(m[k], rate, delta);
      var units := UnitsIn(id)(k, m[k]);
      if k.0 == id {
        assert units == m[k].amount + m[k].locked;
      } else {
        assert units == 0 && delta * units == 0;
      }
    }
    SumLinear(m, ClaimIn(id, rate), ClaimIn(id, rate + delta), UnitsIn(id), delta);
  }

  /** Writing over a live record with a live record only replaces it. */
  lemma WriteLive(s: State, e: Edition, k: BalanceKey, b: Balance)
    requires 0 < b.amount + b.locked <= HARD_MAX && k in s.balances
    ensures WriteBalance(s, e, k, b) ==
              Ok((s.(balances := s.balances[k := b], byOwner := s.byOwner + {(k.1, k.0)}), e))
  {}

  lemma ClaimShape(s: State, op: Op)
    requires Inv(s) && op.ClaimRewards? && ApplyClaim(s, op).Ok?
    ensures
      var k := (op.id, op.holder);
      var t, b := ApplyClaim(s, op).value, Settle(s.balances[(op.id, op.holder)], s.editions[op.id]);
      && t == s.(balances := s.balances[k := b.(unclaimed := 0)], byOwner := s.byOwner + {(op.holder, op.id)}, coins := t.coins)
      && t.coins.pot == s.coins.pot - b.unclaimed
      && t.coins.pool == s.coins.pool[op.id := Pool(s.coins, op.id) - b.unclaimed]
      && t.coins.rewarded == s.coins.rewarded[k := Rewarded(s.coins, k) + b.unclaimed]
  {
    hide Near, Inv, WriteBalance, Claimable;
    var k := (op.id, op.holder);
    Enter(s, op.id, k);
    HeldBound(s, op.id, s.editions[op.id], k, LEVEL, op.holder);
    WriteLive(s, s.editions[op.id], k, Settle(s.balances[k], s.editions[op.id]).(unclaimed := 0));
  }

  /** The record is settled and its whole claim taken out of the pool. */
  lemma ClaimState(s: State, id: EditionId, a: Address, c: Coins)
    requires Inv(s) && id in s.editions && (id, a) in s.balances
    requires c.pot == s.coins.pot - Settle(s.balances[(id, a)], s.editions[id]).unclaimed
    requires c.pool == s.coins.pool[id := Pool(s.coins, id) - Settle(s.balances[(id, a)], s.editions[id]).unclaimed]
    ensures Inv(s.(balances := s.balances[(id, a) := Settle(s.balances[(id, a)], s.editions[id]).(unclaimed := 0)],
                   byOwner := s.byOwner + {(a, id)}, coins := c))
  {
    hide Near, Inv;
    var k, e := (id, a), s.editions[id];
    var b := Settle(s.balances[k], e);
    var b0 := b.(unclaimed := 0);
    var t := s.(balances := s.balances[k := b0], byOwner := s.byOwner + {(a, id)}, coins := c);
    Enter(s, id, k);
    HeldBound(s, id, e, k, LEVEL, a);
    ClaimNear(s, id, e, a, c);
    assert t.editions[id] == e;
    Leave(t, id, e, k);
    assert SaveEdition(t, id, e) == t;
  }

  lemma ClaimNear(s: State, id: EditionId, e: Edition, a: Address, c: Coins)
    requires Near(s, id, e, (id, a), LEVEL) && (id, a) in s.balances
    requires c.pot == s.coins.pot - Settle(s.balances[(id, a)], e).unclaimed
    requires c.pool == s.coins.pool[id := Pool(s.coins, id) - Settle(s.balances[(id, a)], e).unclaimed]
    ensures Near(s.(balances := s.balances[(id, a) := Settle(s.balances[(id, a)], e).(unclaimed := 0)],
                    byOwner := s.byOwner + {(a, id)}, coins := c), id, e, (id, a), LEVEL)
  {
    hide Settle, Sum, SettledOn, Potted, Locks, Counted;
    var k := (id, a);
    var b := Settle(s.balances[k], e);
    var b0 := b.(unclaimed := 0);
    var m := s.balances[k := b0];
    HeldBound(s, id, e, k, LEVEL, a);
    SettleOnly(s.balances[k], e);
    assert m == Put(s.balances, k, b0);
    ClaimCounted(s.balances, s.pending, Pool(s.coins, id), id, e, k);
    ClaimPotted(s.coins, c, s.balances, s.pending, k, b0, b.unclaimed);
    PutLocks(s.balances, s.listings, s.pending, k, 0, k, b0);
    forall j | j in s.editions && j != id
      ensures SettledOn(s.editions[j], m, s.pending, Pool(c, j), j)
    {
      assert Settled(s, j);
      OtherSettled(s.balances, s.pending, Pool(s.coins, j), j, s.editions[j], k, b0);
    }
  }

  lemma ClaimPotted(c: Coins, c1: Coins, m: Balances, inbox: Inbox, k: BalanceKey, b: Balance, n: nat)
    requires Potted(c, m, inbox, 0) && k in m && b.deposit == m[k].deposit && 0 < b.amount + b.locked
    requires c1.pot == c.pot - n && c1.pool == c.pool[k.0 := Pool(c, k.0) - n]
    ensures Potted(c1, Put(m, k, b), inbox, 0)
  {
    PutSum(m, k, b, DepositOf());
    SumPut(c.pool, PoolOf(), k.0, Pool(c, k.0) - n);
  }

  lemma SettleOnly(b: Balance, e: Edition)
    ensures Settle(b, e) == b.(unclaimed := Settle(b, e).unclaimed, rewardDebt := e.rewardPerUnit)
  {}

  lemma ClaimCounted(m: Balances, inbox: Inbox, pool: int, id: EditionId, e: Edition, k: BalanceKey)
    requires Counted(m, inbox, pool, id, e, 0, 0) && k in m && k.0 == id
    requires 0 < m[k].amount + m[k].locked <= HARD_MAX && m[k].rewardDebt <= e.rewardPerUnit
    ensures var b := Settle(m[k], e);
            Counted(Put(m, k, b.(unclaimed := 0)), inbox, pool - b.unclaimed, id, e, 0, 0)
  {
    var b := Settle(m[k], e);
    var b0 := b.(unclaimed := 0);
    SettleRounds(m[k], e);
    SettledClaim(b0);
    PutSum(m, k, b0, UnitsIn(id));
    PutSum(m, k, b0, RecordsIn(id));
    PutSum(m, k, b0, ClaimIn(id, e.rewardPerUnit));
  }

  lemma ClaimKeeps(s: State, op: Op)
    requires Inv(s) && op.ClaimRewards?
    ensures ApplyClaim(s, op).Ok? ==> Inv(ApplyClaim(s, op).value)
  {
    hide Inv, Settle;
    if ApplyClaim(s, op).Ok? {
      ClaimShape(s, op);
      ClaimState(s, op.id, op.holder, ApplyClaim(s, op).value.coins);
    }
  }

  lemma SetMaxSupplyKeeps(s: State, op: Op)
    requires Inv(s) && op.SetMaxSupply?
    ensures ApplySetMaxSupply(s, op).Ok? ==> Inv(ApplySetMaxSupply(s, op).value)
  {
    hide Near, Inv;
    if ApplySetMaxSupply(s, op).Ok? {
      InvFacts(s);
      var id, e := op.id, s.editions[op.id];
      var k := (id, "");
      Enter(s, id, k);
      assert IssuedUnits(e) == e.supply + e.burned + e.reserved;
      Recount(s, id, e, k, LEVEL, e.(maxSupply := op.maxSupply));
      Leave(s, id, e.(maxSupply := op.maxSupply), k);
    }
  }

  lemma CreateState(s: State, id: EditionId, maxSupply: nat, c: Coins)
    requires Inv(s) && id !in s.editions && c.pot == s.coins.pot && c.pool == s.coins.pool
    ensures Inv(s.(editions := s.editions[id := Edition(0, 0, 0, 0, maxSupply, 0)], coins := c))
  {
    hide Sum, UnitsIn, RecordsIn, ClaimIn;
    NoTrace(s, id);
    forall j | j in s.editions
      ensures SettledOn(s.editions[j], s.balances, s.pending, Pool(c, j), j)
    {
    }
  }

  lemma CreateKeeps(s: State, op: Op)
    requires Inv(s) && op.CreateEdition?
    ensures ApplyCreate(s, op).Ok? ==> Inv(ApplyCreate(s, op).value)
  {
    hide Inv;
    if ApplyCreate(s, op).Ok? {
      var c := ApplyCreate(s, op).value.coins;
      assert c.pot == s.coins.pot && c.pool == s.coins.pool;
      CreateState(s, op.id, op.maxSupply, c);
    }
  }

  /** An edition that does not exist yet has no records, items or pool. */
  lemma NoTrace(s: State, id: EditionId)
    requires Inv(s) && id !in s.editions
    ensures Sum(s.balances, UnitsIn(id)) == Sum(s.balances, RecordsIn(id)) == 0
    ensures Sum(s.balances, ClaimIn(id, 0)) == Sum(s.pending, ReservedIn(id)) == 0
    ensures id !in s.coins.pool
  {
    AllZero(s.balances, UnitsIn(id));
    AllZero(s.balances, RecordsIn(id));
    AllZero(s.balances, ClaimIn(id, 0));
    AllZero(s.pending, ReservedIn(id));
  }

  lemma {:induction false} AllZero<K, V>(m: map<K, V>, f: (K, V) -> int)
    requires forall k :: k in m ==> f(k, m[k]) == 0
    ensures Sum(m, f) == 0
    decreases m.Keys
  {
    if m != map[] {
      var k :| k in m;
      SumSplit(m, f, k);
      AllZero(m - {k}, f);
    }
  }

  // ----- every message, every run -----

  lemma ApplyKeeps(s: State, op: Op)
    requires Inv(s)
    ensures Inv(Deliver(s, op))
  {
    hide Inv;
    match op {
      case CreateEdition(_, _, _, _) => CreateKeeps(s, op);
      case MintUnits(_, _, _, _, _) => MintKeeps(s, op);
      case TransferUnits(_, _, _, _, _, _, _) => TransferKeeps(s, op);
      case ListUnits(_, _, _) => ListKeeps(s, op);
      case UpdateUnitListing(_, _) => UpdateListingKeeps(s, op);
      case DelistUnits(lid) => if lid in s.listings { RemoveListingSucceeds(s, lid); }
      case BuyUnits(_, _, _, _) => BuyKeeps(s, op);
      case BurnUnits(_, _, _) => BurnKeeps(s, op);
      case FundEdition(_, _, _) => FundKeeps(s, op);
      case ClaimRewards(_, _, _) => ClaimKeeps(s, op);
      case SetMaxSupply(_, _) => SetMaxSupplyKeeps(s, op);
      case Resolve(pid, outcome) => if pid in s.pending { ResolveSucceeds(s, pid, outcome); }
    }
  }

  lemma {:induction false} RunKeeps(wallets: map<Address, nat>, ops: seq<Op>)
    ensures Inv(Run(Genesis(wallets), ops))
    decreases |ops|
  {
    if ops != [] {
      RunKeeps(wallets, ops[..|ops| - 1]);
      ApplyKeeps(Run(Genesis(wallets), ops[..|ops| - 1]), ops[|ops| - 1]);
    }
  }

  /** In every reachable state every inbox item resolves with every outcome and every listing comes down. */
  lemma NothingStuck(wallets: map<Address, nat>, ops: seq<Op>)
    ensures var s := Run(Genesis(wallets), ops);
      && (forall pid, outcome :: pid in s.pending ==> ResolvePendingUnits(s, pid, outcome).Ok?)
      && (forall lid :: lid in s.listings ==> RemoveUnitListing(s, lid).Ok?)
  {
    hide Inv, ResolvePendingUnits, RemoveUnitListing;
    RunKeeps(wallets, ops);
    var s := Run(Genesis(wallets), ops);
    forall pid, outcome | pid in s.pending
      ensures ResolvePendingUnits(s, pid, outcome).Ok?
    {
      ResolveSucceeds(s, pid, outcome);
    }
    forall lid | lid in s.listings
      ensures RemoveUnitListing(s, lid).Ok?
    {
      RemoveListingSucceeds(s, lid);
    }
  }
}
