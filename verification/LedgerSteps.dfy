/** Every primitive and message keeps the ledger's invariant, and the steps
    that must not fail do not. */
module LedgerSteps {
  import opened Ledger
  import opened MapSums
  import opened LedgerInvariant

  // ----- settling -----

  /** Settling moves what a record is owed into `unclaimed`, losing less than one coin to rounding. */
  lemma SettleRounds(b: Balance, e: Edition)
    requires b.amount + b.locked <= HARD_MAX && b.rewardDebt <= e.rewardPerUnit
    ensures Scaled(Settle(b, e).unclaimed) <= ExactClaim(b, e.rewardPerUnit) < Scaled(Settle(b, e).unclaimed) + Scaled(1)
  {
    var x := (e.rewardPerUnit - b.rewardDebt) * (b.amount + b.locked);
    assert Units(b) == b.amount + b.locked;
    assert e.rewardPerUnit == b.rewardDebt ==> x == 0;
    assert b.amount + b.locked == 0 ==> x == 0;
    assert x == (b.amount + b.locked) * (e.rewardPerUnit - b.rewardDebt);
  }

  lemma SettledClaim(b: Balance)
    ensures ExactClaim(b, b.rewardDebt) == Scaled(b.unclaimed)
  {}

  lemma SettledWritable(m: Balances, e: Edition, k: BalanceKey, b: Balance)
    requires k in m && m[k].amount + m[k].locked <= HARD_MAX && m[k].rewardDebt <= e.rewardPerUnit
    requires b.unclaimed <= Settle(m[k], e).unclaimed && b.rewardDebt == e.rewardPerUnit
    requires b.amount + b.locked <= HARD_MAX
    ensures Writable(m, e.rewardPerUnit, k, b)
  {
    SettleRounds(m[k], e);
    SettledClaim(b);
  }

  // ----- debit, lock, credit -----

  lemma DebitKeeps(s: State, id: EditionId, e: Edition, a: Address, d: Slack, amount: nat, fromLocked: bool)
    requires Near(s, id, e, (id, a), d)
    ensures Debit(s, e, (id, a), amount, fromLocked).Ok? ==>
      var (t, e1) := Debit(s, e, (id, a), amount, fromLocked).value;
      Near(t, id, e1, (id, a), d.(units := d.units - amount, locked := if fromLocked then d.locked - amount else d.locked))
    ensures 0 <= d.pot && (id, a) in s.balances
            && amount <= (if fromLocked then s.balances[(id, a)].locked else s.balances[(id, a)].amount) ==>
              Debit(s, e, (id, a), amount, fromLocked).Ok?
  {
    hide Near;
    var k := (id, a);
    var b := RecordAt(s.balances, k);
    if k in s.balances && amount <= (if fromLocked then b.locked else b.amount) {
      HeldBound(s, id, e, k, d, a);
      var b1 := Settle(b, e);
      var b2 := if fromLocked then b1.(locked := b1.locked - amount) else b1.(amount := b1.amount - amount);
      SettledWritable(s.balances, e, k, b2);
      assert GetBalance(s, k) == b;
      assert Debit(s, e, k, amount, fromLocked) == WriteBalance(s, e, k, b2);
      WriteKeeps(s, id, e, k, d, k, b2);
    }
  }

  lemma LockKeeps(s: State, id: EditionId, e: Edition, a: Address, d: Slack, amount: nat, unlock: bool)
    requires Near(s, id, e, (id, a), d)
    ensures LockUnits(s, e, (id, a), amount, unlock).Ok? ==>
      var (t, e1) := LockUnits(s, e, (id, a), amount, unlock).value;
      Near(t, id, e1, (id, a), d.(locked := if unlock then d.locked - amount else d.locked + amount))
    ensures (id, a) in s.balances && amount <= (if unlock then s.balances[(id, a)].locked else s.balances[(id, a)].amount) ==>
              LockUnits(s, e, (id, a), amount, unlock).Ok?
  {
    hide Near;
    var k := (id, a);
    var b := RecordAt(s.balances, k);
    if k in s.balances && amount <= (if unlock then b.locked else b.amount) {
      HeldBound(s, id, e, k, d, a);
      var b1 := if unlock then b.(locked := b.locked - amount, amount := b.amount + amount)
                else b.(amount := b.amount - amount, locked := b.locked + amount);
      assert GetBalance(s, k) == b;
      assert LockUnits(s, e, k, amount, unlock) == WriteBalance(s, e, k, b1);
      WriteKeeps(s, id, e, k, d, k, b1);
    }
  }

  lemma CoinsMoved(s: State, id: EditionId, e: Edition, k: BalanceKey, d: Slack, c: Coins)
    requires Near(s, id, e, k, d) && c.pool == s.coins.pool
    ensures Near(s.(coins := c), id, e, k, d.(pot := d.pot + c.pot - s.coins.pot))
  {
    var t := s.(coins := c);
    forall j | j in t.editions && j != id
      ensures Settled(t, j)
    {
      assert Settled(s, j);
    }
  }

  function Escrow(f: Funding): nat { if f.Escrowed? then f.escrow else 0 }

  lemma CreditKeeps(s: State, id: EditionId, e: Edition, kk: BalanceKey, d: Slack, a: Address, amount: nat, f: Funding)
    requires Near(s, id, e, kk, d) && 0 < amount && e.supply + d.units + amount <= HARD_MAX
    ensures Credit(s, e, (id, a), amount, f).Ok? ==>
      var (t, e1) := Credit(s, e, (id, a), amount, f).value;
      Near(t, id, e1, kk, d.(units := d.units + amount, pot := d.pot - Escrow(f)))
    ensures f.Escrowed? && f.escrow <= d.pot ==> Credit(s, e, (id, a), amount, f).Ok?
    ensures f.PaidBy? && ((id, a) in s.balances || f.tokenDeposit <= Wallet(s.coins, f.payer)) ==> Credit(s, e, (id, a), amount, f).Ok?
  {
    if (id, a) in s.balances {
      CreditExisting(s, id, e, kk, d, a, amount, f);
    } else {
      CreditNew(s, id, e, kk, d, a, amount, f);
    }
  }

  lemma PotHolds(s: State, id: EditionId, e: Edition, k: BalanceKey, d: Slack)
    requires Near(s, id, e, k, d)
    ensures d.pot <= s.coins.pot
  {
    PoolCovers(s, id, e, k, d);
    SumSign(s.balances, DepositOf());
    SumSign(s.pending, EscrowOf());
  }

  lemma CreditExisting(s: State, id: EditionId, e: Edition, kk: BalanceKey, d: Slack, a: Address, amount: nat, f: Funding)
    requires Near(s, id, e, kk, d) && 0 < amount && e.supply + d.units + amount <= HARD_MAX
    requires (id, a) in s.balances
    ensures Credit(s, e, (id, a), amount, f).Ok? ==>
      var (t, e1) := Credit(s, e, (id, a), amount, f).value;
      Near(t, id, e1, kk, d.(units := d.units + amount, pot := d.pot - Escrow(f)))
    ensures f.PaidBy? || f.escrow <= d.pot ==> Credit(s, e, (id, a), amount, f).Ok?
  {
    hide Near;
    var k := (id, a);
    PotHolds(s, id, e, kk, d);
    var r := if f.Escrowed? then Refund(s.coins, f.escrowFrom, f.escrow) else Ok(s.coins);
    if r.Ok? {
      var c1 := r.value;
      var s1 := s.(coins := c1);
      var d1 := d.(pot := d.pot - Escrow(f));
      CoinsMoved(s, id, e, kk, d, c1);
      HeldBound(s1, id, e, kk, d1, a);
      var b := s.balances[k];
      var b2 := Settle(b, e).(amount := b.amount + amount);
      SettledWritable(s1.balances, e, k, b2);
      assert Credit(s, e, k, amount, f) == WriteBalance(s1, e, k, b2);
      WriteKeeps(s1, id, e, kk, d1, k, b2);
    }
  }

  lemma CreditNew(s: State, id: EditionId, e: Edition, kk: BalanceKey, d: Slack, a: Address, amount: nat, f: Funding)
    requires Near(s, id, e, kk, d) && 0 < amount && e.supply + d.units + amount <= HARD_MAX
    requires (id, a) !in s.balances
    ensures Credit(s, e, (id, a), amount, f).Ok? ==>
      var (t, e1) := Credit(s, e, (id, a), amount, f).value;
      Near(t, id, e1, kk, d.(units := d.units + amount, pot := d.pot - Escrow(f)))
    ensures f.Escrowed? || f.tokenDeposit <= Wallet(s.coins, f.payer) ==> Credit(s, e, (id, a), amount, f).Ok?
  {
    hide Near;
    var k := (id, a);
    var r := if f.Escrowed? then Ok(s.coins) else Collect(s.coins, f.payer, f.tokenDeposit);
    if r.Ok? {
      var c1 := r.value;
      var s1 := s.(coins := c1);
      var deposit := if f.Escrowed? then f.escrow else f.tokenDeposit;
      var d1 := d.(pot := d.pot + deposit - Escrow(f));
      CoinsMoved(s, id, e, kk, d, c1);
      HeldBound(s1, id, e, kk, d1, a);
      var b2 := Balance(amount, 0, deposit, e.rewardPerUnit, 0);
      SettledClaim(b2);
      assert Credit(s, e, k, amount, f) == WriteBalance(s1, e, k, b2);
      WriteKeeps(s1, id, e, kk, d1, k, b2);
    }
  }

  // ----- parking, and the two item books -----

  lemma InboxPut(s: State, id: EditionId, e: Edition, k: BalanceKey, d: Slack, pid: nat, item: Pending)
    requires Near(s, id, e, k, d) && pid == s.pendingSeq + 1 && item.edition == id && 0 < item.amount
    requires item.kind == UnitTransfer ==> k == (id, item.from)
    ensures Near(s.(pending := s.pending[pid := item], pendingSeq := pid), id, e, k,
                 Slack(d.units,
                       if item.kind == UnitTransfer then d.locked - item.amount else d.locked,
                       if item.kind == UnitMint then d.reserved + item.amount else d.reserved,
                       d.pot - item.deposit))
  {
    hide Sum;
    var t := s.(pending := s.pending[pid := item], pendingSeq := pid);
    assert pid !in s.pending;
    InboxSums(s.pending, pid, item);
    forall j | j in t.editions && j != id
      ensures Settled(t, j)
    {
      assert Settled(s, j);
    }
  }

  lemma InboxSums(m: Inbox, pid: nat, item: Pending)
    requires pid !in m
    ensures Sum(m[pid := item], EscrowOf()) == Sum(m, EscrowOf()) + item.deposit
    ensures forall j :: Sum(m[pid := item], ReservedIn(j)) ==
                          Sum(m, ReservedIn(j)) + if item.kind == UnitMint && item.edition == j then item.amount else 0
    ensures forall j :: Sum(m[pid := item], OutgoingOf(j)) ==
                          Sum(m, OutgoingOf(j)) + if item.kind == UnitTransfer && (item.edition, item.from) == j then item.amount else 0
  {
    hide Sum;
    SumPut(m, EscrowOf(), pid, item);
    forall j: EditionId
      ensures Sum(m[pid := item], ReservedIn(j)) ==
                Sum(m, ReservedIn(j)) + if item.kind == UnitMint && item.edition == j then item.amount else 0
    {
      SumPut(m, ReservedIn(j), pid, item);
    }
    forall j: BalanceKey
      ensures Sum(m[pid := item], OutgoingOf(j)) ==
                Sum(m, OutgoingOf(j)) + if item.kind == UnitTransfer && (item.edition, item.from) == j then item.amount else 0
    {
      SumPut(m, OutgoingOf(j), pid, item);
    }
  }

  lemma InboxDrop(s: State, id: EditionId, e: Edition, k: BalanceKey, d: Slack, pid: nat)
    requires Near(s, id, e, k, d) && pid in s.pending && s.pending[pid].edition == id
    requires s.pending[pid].kind == UnitTransfer ==> k == (id, s.pending[pid].from)
    ensures var item := s.pending[pid];
            Near(s.(pending := s.pending - {pid}), id, e, k,
                 Slack(d.units,
                       if item.kind == UnitTransfer then d.locked + item.amount else d.locked,
                       if item.kind == UnitMint then d.reserved - item.amount else d.reserved,
                       d.pot + item.deposit))
  {
    var t := s.(pending := s.pending - {pid});
    var item := s.pending[pid];
    assert t.pending[pid := item] == s.pending;
    InboxSums(t.pending, pid, item);
    forall j | j in t.editions && j != id
      ensures Settled(t, j)
    {
      assert Settled(s, j);
    }
  }

  lemma MarketPut(s: State, id: EditionId, e: Edition, k: BalanceKey, d: Slack, lid: nat, q: nat, last: nat)
    requires Near(s, id, e, k, d) && k.0 == id && s.listingSeq <= last && lid <= last && 0 < q
    requires lid in s.listings ==> (s.listings[lid].edition, s.listings[lid].seller) == k
    ensures Near(s.(listings := s.listings[lid := Listing(id, k.1, q)], listingSeq := last), id, e, k,
                 d.(locked := d.locked - q + if lid in s.listings then s.listings[lid].quantity else 0))
  {
    var m := s.listings[lid := Listing(id, k.1, q)];
    var t := s.(listings := m, listingSeq := last);
    forall j: BalanceKey
      ensures Sum(m, ListedBy(j)) == Sum(s.listings, ListedBy(j))
                + if j == k then q - (if lid in s.listings then s.listings[lid].quantity else 0) else 0
    {
      SumPut(s.listings, ListedBy(j), lid, Listing(id, k.1, q));
    }
    forall j | j in t.editions && j != id
      ensures Settled(t, j)
    {
      assert Settled(s, j);
    }
  }

  lemma MarketDrop(s: State, id: EditionId, e: Edition, k: BalanceKey, d: Slack, lid: nat)
    requires Near(s, id, e, k, d) && lid in s.listings && (s.listings[lid].edition, s.listings[lid].seller) == k
    ensures Near(s.(listings := s.listings - {lid}), id, e, k, d.(locked := d.locked + s.listings[lid].quantity))
  {
    var t := s.(listings := s.listings - {lid});
    forall j: BalanceKey
      ensures Sum(t.listings, ListedBy(j)) == Sum(s.listings, ListedBy(j)) - if j == k then s.listings[lid].quantity else 0
    {
      SumDrop(s.listings, ListedBy(j), lid);
    }
    forall j | j in t.editions && j != id
      ensures Settled(t, j)
    {
      assert Settled(s, j);
    }
  }
}
