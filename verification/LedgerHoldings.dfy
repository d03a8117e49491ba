/** Where the units go: what each message does to every holder's free and
    locked units, as a table beside the messages' own code. */
module LedgerHoldings {
  import opened MapSums
  import opened Ledger
  import opened LedgerInvariant
  import opened LedgerMessages
  import LedgerRewards

  /** What a holder gains, or with a minus sign loses. */
  datatype Shift = Shift(free: int, locked: int)

  /** A change that is `d` for holder `a` of edition `id`, and nothing for anyone else. */
  function Only(k: BalanceKey, id: EditionId, a: Address, d: Shift): Shift {
    if k.0 == id && k.1 == a then d else Shift(0, 0)
  }

  ghost predicate Small(m: Balances) {
    forall k <- m :: m[k].amount <= HARD_MAX && m[k].locked <= HARD_MAX
  }

  /** Only the record at `k` changes its units, by `d`. */
  ghost predicate Shifted(m: Balances, m1: Balances, k: BalanceKey, d: Shift) {
    forall j: BalanceKey ::
      && RecordAt(m1, j).amount == RecordAt(m, j).amount + Only(j, k.0, k.1, d).free
      && RecordAt(m1, j).locked == RecordAt(m, j).locked + Only(j, k.0, k.1, d).locked
  }

  // ----- the primitives -----

  lemma WriteShifts(s: State, e: Edition, k: BalanceKey, b: Balance)
    requires Small(s.balances) && b.amount <= HARD_MAX && b.locked <= HARD_MAX
    ensures WriteBalance(s, e, k, b).Ok? ==>
      var t := WriteBalance(s, e, k, b).value.0;
      && Small(t.balances)
      && Shifted(s.balances, t.balances, k, Shift(b.amount - RecordAt(s.balances, k).amount, b.locked - RecordAt(s.balances, k).locked))
  {
    assert Units(b) == b.amount + b.locked;
  }

  lemma DebitShifts(s: State, e: Edition, k: BalanceKey, n: nat, fromLocked: bool)
    requires Small(s.balances)
    ensures Debit(s, e, k, n, fromLocked).Ok? ==>
      var t := Debit(s, e, k, n, fromLocked).value.0;
      Small(t.balances) && Shifted(s.balances, t.balances, k, if fromLocked then Shift(0, 0 - n) else Shift(0 - n, 0))
  {
    hide WriteBalance, Shifted;
    if Debit(s, e, k, n, fromLocked).Ok? {
      var b := Settle(s.balances[k], e);
      WriteShifts(s, e, k, if fromLocked then b.(locked := b.locked - n) else b.(amount := b.amount - n));
    }
  }

  lemma CreditShifts(s: State, e: Edition, k: BalanceKey, n: nat, f: Funding)
    requires Small(s.balances)
    ensures Credit(s, e, k, n, f).Ok? ==>
      var t := Credit(s, e, k, n, f).value.0;
      Small(t.balances) && Shifted(s.balances, t.balances, k, Shift(n, 0))
  {
    hide WriteBalance, Shifted;
    if Credit(s, e, k, n, f).Ok? {
      var b := GetBalance(s, k);
      var c := if k in s.balances
               then (if f.Escrowed? then Refund(s.coins, f.escrowFrom, f.escrow).value else s.coins)
               else (if f.Escrowed? then s.coins else Collect(s.coins, f.payer, f.tokenDeposit).value);
      var b1 := if k in s.balances then Settle(b, e).(amount := b.amount + n)
                else b.(amount := n, deposit := if f.Escrowed? then f.escrow else f.tokenDeposit, rewardDebt := e.rewardPerUnit);
      WriteShifts(s.(coins := c), e, k, b1);
    }
  }

  lemma LockShifts(s: State, e: Edition, k: BalanceKey, n: nat, unlock: bool)
    requires Small(s.balances)
    ensures LockUnits(s, e, k, n, unlock).Ok? ==>
      var t := LockUnits(s, e, k, n, unlock).value.0;
      Small(t.balances) && Shifted(s.balances, t.balances, k, if unlock then Shift(n, 0 - n) else Shift(0 - n, n))
  {
    hide WriteBalance, Shifted;
    if LockUnits(s, e, k, n, unlock).Ok? {
      var b := s.balances[k];
      WriteShifts(s, e, k, if unlock then b.(locked := b.locked - n, amount := b.amount + n)
                           else b.(amount := b.amount - n, locked := b.locked + n));
    }
  }

  // ----- the table -----

  function DirectTo(entries: seq<Entry>, a: Address): nat {
    if entries == [] then 0
    else (if entries[0].direct && entries[0].recipient == a then entries[0].amount else 0) + DirectTo(entries[1..], a)
  }

  function DirectTotal(entries: seq<Entry>): nat {
    if entries == [] then 0 else (if entries[0].direct then entries[0].amount else 0) + DirectTotal(entries[1..])
  }

  function Plus(a: Shift, b: Shift): Shift { Shift(a.free + b.free, a.locked + b.locked) }

  /** From one holder's free or locked units to another's free units. */
  function Handed(k: BalanceKey, id: EditionId, from: Address, to: Address, n: nat, fromLocked: bool): Shift {
    Plus(Only(k, id, from, if fromLocked then Shift(0, 0 - n) else Shift(0 - n, 0)), Only(k, id, to, Shift(n, 0)))
  }

  /** From a holder's free units to its locked ones, or back for a negative amount. */
  function Locks(k: BalanceKey, id: EditionId, a: Address, n: int): Shift { Only(k, id, a, Shift(0 - n, n)) }

  function ListingGain(l: Listing, k: BalanceKey, wanted: int): Shift { Locks(k, l.edition, l.seller, wanted - l.quantity) }

  function ItemGain(p: Pending, outcome: Outcome, k: BalanceKey): Shift {
    if outcome == Accepted then
      if p.kind == UnitMint then Only(k, p.edition, p.to, Shift(p.amount, 0)) else Handed(k, p.edition, p.from, p.to, p.amount, true)
    else if p.kind == UnitMint then Shift(0, 0)
    else Locks(k, p.edition, p.from, 0 - p.amount)
  }

  /** What a message that succeeds gives the holder `k`. */
  function Gain(s: State, op: Op, k: BalanceKey): Shift {
    match op
    case MintUnits(id, _, entries, _, _) => if k.0 == id then Shift(DirectTo(entries, k.1), 0) else Shift(0, 0)
    case TransferUnits(id, _, holder, to, n, direct, _) =>
      if direct then Handed(k, id, holder, to, n, false) else Locks(k, id, holder, n)
    case ListUnits(id, seller, n) => Locks(k, id, seller, n)
    case UpdateUnitListing(lid, n) => if lid in s.listings then ListingGain(s.listings[lid], k, n) else Shift(0, 0)
    case DelistUnits(lid) => if lid in s.listings then ListingGain(s.listings[lid], k, 0) else Shift(0, 0)
    case BuyUnits(lid, buyer, n, _) =>
      if lid in s.listings then Handed(k, s.listings[lid].edition, s.listings[lid].seller, buyer, n, true) else Shift(0, 0)
    case BurnUnits(id, holder, n) => Only(k, id, holder, Shift(0 - n, 0))
    case Resolve(pid, outcome) => if pid in s.pending then ItemGain(s.pending[pid], outcome, k) else Shift(0, 0)
    case _ => Shift(0, 0)
  }

  ghost predicate HandedOver(m: Balances, m1: Balances, id: EditionId, from: Address, to: Address, n: nat, fromLocked: bool) {
    forall k: BalanceKey ::
      && RecordAt(m1, k).amount == RecordAt(m, k).amount + Handed(k, id, from, to, n, fromLocked).free
      && RecordAt(m1, k).locked == RecordAt(m, k).locked + Handed(k, id, from, to, n, fromLocked).locked
  }

  lemma BothShifts(m: Balances, m1: Balances, m2: Balances, id: EditionId, from: Address, to: Address, n: nat, fromLocked: bool)
    requires Shifted(m, m1, (id, from), if fromLocked then Shift(0, 0 - n) else Shift(0 - n, 0))
    requires Shifted(m1, m2, (id, to), Shift(n, 0))
    ensures HandedOver(m, m2, id, from, to, n, fromLocked)
  {
    hide RecordAt, Only;
  }

  /** A debit and then a credit move units from one holder to another, or to itself. */
  lemma HandOver(s: State, e: Edition, id: EditionId, from: Address, to: Address, n: nat, fromLocked: bool, f: Funding)
    requires Small(s.balances) && Debit(s, e, (id, from), n, fromLocked).Ok?
    ensures
      var (s1, e1) := Debit(s, e, (id, from), n, fromLocked).value;
      Credit(s1, e1, (id, to), n, f).Ok? ==>
        HandedOver(s.balances, Credit(s1, e1, (id, to), n, f).value.0.balances, id, from, to, n, fromLocked)
  {
    hide Debit, Credit, Shifted, HandedOver;
    DebitShifts(s, e, (id, from), n, fromLocked);
    var (s1, e1) := Debit(s, e, (id, from), n, fromLocked).value;
    CreditShifts(s1, e1, (id, to), n, f);
    if Credit(s1, e1, (id, to), n, f).Ok? {
      BothShifts(s.balances, s1.balances, Credit(s1, e1, (id, to), n, f).value.0.balances, id, from, to, n, fromLocked);
    }
  }

  ghost predicate GainsAt(s: State, t: State, op: Op, k: BalanceKey) {
    && RecordAt(t.balances, k).amount == RecordAt(s.balances, k).amount + Gain(s, op, k).free
    && RecordAt(t.balances, k).locked == RecordAt(s.balances, k).locked + Gain(s, op, k).locked
  }

  ghost predicate Gains(s: State, t: State, op: Op) { forall k: BalanceKey :: GainsAt(s, t, op, k) }

  lemma DirectTable(s: State, t: State, op: Op)
    requires op.TransferUnits? && op.direct
    requires HandedOver(s.balances, t.balances, op.id, op.holder, op.to, op.amount, false)
    ensures Gains(s, t, op)
  {
    hide Handed, RecordAt;
  }

  lemma DirectGains(s: State, op: Op)
    requires Small(s.balances) && op.TransferUnits? && op.direct && ApplyTransfer(s, op).Ok?
    ensures Gains(s, ApplyTransfer(s, op).value, op)
  {
    hide Debit, Credit, HandedOver, Gains;
    HandOver(s, s.editions[op.id], op.id, op.holder, op.to, op.amount, false, PaidBy(op.sender, op.terms.tokenDeposit));
    DirectTable(s, ApplyTransfer(s, op).value, op);
  }

  lemma ParkedGains(s: State, op: Op)
    requires Small(s.balances) && op.TransferUnits? && !op.direct && ApplyTransfer(s, op).Ok?
    ensures Gains(s, ApplyTransfer(s, op).value, op)
  {
    hide LockUnits;
    LockShifts(s, s.editions[op.id], (op.id, op.holder), op.amount, false);
  }

  lemma TransferGains(s: State, op: Op)
    requires Small(s.balances) && op.TransferUnits?
    ensures ApplyTransfer(s, op).Ok? ==> Gains(s, ApplyTransfer(s, op).value, op)
  {
    hide ApplyTransfer, Gains;
    if ApplyTransfer(s, op).Ok? {
      if op.direct { DirectGains(s, op); } else { ParkedGains(s, op); }
    }
  }

  lemma ListingGains(s: State, op: Op)
    requires Small(s.balances) && (op.ListUnits? || op.UpdateUnitListing? || op.DelistUnits?)
    ensures Apply(s, op).Ok? ==> Gains(s, Apply(s, op).value, op)
  {
    hide LockUnits;
    if Apply(s, op).Ok? {
      match op {
        case ListUnits(id, seller, n) => LockShifts(s, s.editions[id], (id, seller), n, false);
        case UpdateUnitListing(lid, n) =>
          var l := s.listings[lid];
          var e, k := s.editions[l.edition], (l.edition, l.seller);
          if n > l.quantity { LockShifts(s, e, k, n - l.quantity, false); }
          if n < l.quantity { LockShifts(s, e, k, l.quantity - n, true); }
        case DelistUnits(lid) => RemoveGains(s, lid);
      }
    }
  }

  lemma RemoveGains(s: State, lid: nat)
    requires Small(s.balances)
    ensures RemoveUnitListing(s, lid).Ok? ==> Gains(s, RemoveUnitListing(s, lid).value, DelistUnits(lid))
  {
    hide LockUnits;
    if RemoveUnitListing(s, lid).Ok? && s.listings[lid].quantity > 0 {
      var l := s.listings[lid];
      LockShifts(s.(listings := s.listings - {lid}), s.editions[l.edition], (l.edition, l.seller), l.quantity, true);
    }
  }

  lemma BuyHandsOver(s: State, op: Op)
    requires Small(s.balances) && op.BuyUnits? && ApplyBuy(s, op).Ok?
    ensures var l := s.listings[op.listing];
            HandedOver(s.balances, ApplyBuy(s, op).value.balances, l.edition, l.seller, op.buyer, op.amount, true)
  {
    hide Debit, Credit, LockUnits, HandedOver;
    var l := s.listings[op.listing];
    HandOver(s, s.editions[l.edition], l.edition, l.seller, op.buyer, op.amount, true, PaidBy(op.buyer, op.tokenDeposit));
  }

  lemma BuyTable(s: State, t: State, op: Op)
    requires op.BuyUnits? && op.listing in s.listings
    requires var l := s.listings[op.listing];
             HandedOver(s.balances, t.balances, l.edition, l.seller, op.buyer, op.amount, true)
    ensures Gains(s, t, op)
  {
    hide Handed, RecordAt;
  }

  lemma BuyGains(s: State, op: Op)
    requires Small(s.balances) && op.BuyUnits?
    ensures ApplyBuy(s, op).Ok? ==> Gains(s, ApplyBuy(s, op).value, op)
  {
    hide Debit, Credit, RemoveUnitListing, HandedOver, Gains;
    if ApplyBuy(s, op).Ok? {
      BuyHandsOver(s, op);
      BuyTable(s, ApplyBuy(s, op).value, op);
    }
  }

  lemma BurnGains(s: State, op: Op)
    requires Small(s.balances) && op.BurnUnits?
    ensures ApplyBurn(s, op).Ok? ==> Gains(s, ApplyBurn(s, op).value, op)
  {
    hide Debit;
    if ApplyBurn(s, op).Ok? {
      DebitShifts(s, s.editions[op.id], (op.id, op.holder), op.amount, false);
    }
  }

  lemma ResolveGains(s: State, op: Op)
    requires Small(s.balances) && op.Resolve?
    ensures ResolvePendingUnits(s, op.item, op.outcome).Ok? ==> Gains(s, ResolvePendingUnits(s, op.item, op.outcome).value, op)
  {
    hide Gains, Debit, Credit, LockUnits;
    if ResolvePendingUnits(s, op.item, op.outcome).Ok? {
      if s.pending[op.item].kind == UnitMint {
        MintItemGains(s, op);
      } else if op.outcome == Accepted {
        AcceptedGains(s, op);
      } else {
        ReturnedGains(s, op);
      }
    }
  }

  lemma MintItemTable(s: State, t: State, op: Op)
    requires op.Resolve? && op.item in s.pending && s.pending[op.item].kind == UnitMint
    requires var p := s.pending[op.item];
             if op.outcome == Accepted then Shifted(s.balances, t.balances, (p.edition, p.to), Shift(p.amount, 0))
             else t.balances == s.balances
    ensures Gains(s, t, op)
  {
  }

  lemma MintItemGains(s: State, op: Op)
    requires Small(s.balances) && op.Resolve? && op.item in s.pending && s.pending[op.item].kind == UnitMint
    requires ResolvePendingUnits(s, op.item, op.outcome).Ok?
    ensures Gains(s, ResolvePendingUnits(s, op.item, op.outcome).value, op)
  {
    hide Credit, LockUnits, Debit, Shifted, Gains;
    var p := s.pending[op.item];
    if op.outcome == Accepted {
      var e := s.editions[p.edition].(reserved := Wrap(s.editions[p.edition].reserved - p.amount));
      CreditShifts(s.(pending := s.pending - {op.item}), e.(supply := AddUnits(e.supply, p.amount).value),
                   (p.edition, p.to), p.amount, Escrowed(p.deposit, p.from));
    }
    MintItemTable(s, ResolvePendingUnits(s, op.item, op.outcome).value, op);
  }

  lemma AcceptedTable(s: State, t: State, op: Op)
    requires op.Resolve? && op.item in s.pending && s.pending[op.item].kind == UnitTransfer && op.outcome == Accepted
    requires var p := s.pending[op.item];
             HandedOver(s.balances, t.balances, p.edition, p.from, p.to, p.amount, true)
    ensures Gains(s, t, op)
  {
    hide Handed, RecordAt;
  }

  lemma AcceptedGains(s: State, op: Op)
    requires Small(s.balances) && op.Resolve? && op.item in s.pending && s.pending[op.item].kind == UnitTransfer
    requires ResolvePendingUnits(s, op.item, op.outcome).Ok? && op.outcome == Accepted
    ensures Gains(s, ResolvePendingUnits(s, op.item, op.outcome).value, op)
  {
    hide Debit, Credit, LockUnits, HandedOver, Gains;
    var p := s.pending[op.item];
    HandOver(s.(pending := s.pending - {op.item}), s.editions[p.edition], p.edition, p.from, p.to, p.amount, true,
             Escrowed(p.deposit, p.from));
    AcceptedTable(s, ResolvePendingUnits(s, op.item, op.outcome).value, op);
  }

  lemma ReturnedGains(s: State, op: Op)
    requires Small(s.balances) && op.Resolve? && op.item in s.pending && s.pending[op.item].kind == UnitTransfer
    requires ResolvePendingUnits(s, op.item, op.outcome).Ok? && op.outcome != Accepted
    ensures Gains(s, ResolvePendingUnits(s, op.item, op.outcome).value, op)
  {
    hide LockUnits;
    var p := s.pending[op.item];
    LockShifts(s.(pending := s.pending - {op.item}), s.editions[p.edition], (p.edition, p.from), p.amount, true);
  }

  lemma {:induction false} MintEachGains(s: State, e: Edition, id: EditionId, minter: Address, entries: seq<Entry>,
                                         tokenDeposit: nat, inboxFee: nat)
    requires Small(s.balances)
    ensures MintEach(s, e, id, minter, entries, tokenDeposit, inboxFee).Ok? ==>
      var t := MintEach(s, e, id, minter, entries, tokenDeposit, inboxFee).value.0;
      forall k: BalanceKey ::
        && RecordAt(t.balances, k).amount == RecordAt(s.balances, k).amount + (if k.0 == id then DirectTo(entries, k.1) else 0)
        && RecordAt(t.balances, k).locked == RecordAt(s.balances, k).locked
    decreases |entries|
  {
    hide Credit, Debit;
    if entries != [] && MintEach(s, e, id, minter, entries, tokenDeposit, inboxFee).Ok? {
      var x := entries[0];
      if x.direct { CreditShifts(s, e, (id, x.recipient), x.amount, PaidBy(minter, tokenDeposit)); }
      var (s1, e1) := MintUnitsTo(s, e, id, minter, x.recipient, x.amount, x.direct, Terms(tokenDeposit, inboxFee, x.slotFree)).value;
      MintEachGains(s1, e1, id, minter, entries[1..], tokenDeposit, inboxFee);
    }
  }

  /** Every message that succeeds moves every holder's units as the table says:
      to and from the parties it names, and nobody else. */
  lemma UnitsMove(s: State, op: Op)
    requires Inv(s)
    ensures Apply(s, op).Ok? ==> Gains(s, Apply(s, op).value, op)
  {
    hide Inv, Gains;
    LedgerRewards.InvFine(s);
    if Apply(s, op).Ok? {
      match op {
        case MintUnits(id, minter, entries, tokenDeposit, inboxFee) => MintGains(s, op);
        case TransferUnits(_, _, _, _, _, _, _) => TransferGains(s, op);
        case ListUnits(_, _, _) => ListingGains(s, op);
        case UpdateUnitListing(_, _) => ListingGains(s, op);
        case DelistUnits(_) => ListingGains(s, op);
        case BuyUnits(_, _, _, _) => BuyGains(s, op);
        case BurnUnits(_, _, _) => BurnGains(s, op);
        case Resolve(_, _) => ResolveGains(s, op);
        case _ => StillGains(s, op);
      }
    }
  }

  lemma MintGains(s: State, op: Op)
    requires Small(s.balances) && op.MintUnits?
    ensures ApplyMint(s, op).Ok? ==> Gains(s, ApplyMint(s, op).value, op)
  {
    hide MintEach;
    if ApplyMint(s, op).Ok? {
      MintEachGains(s, s.editions[op.id], op.id, op.minter, op.entries, op.tokenDeposit, op.inboxFee);
    }
  }

  lemma StillGains(s: State, op: Op)
    requires Small(s.balances) && (op.CreateEdition? || op.FundEdition? || op.ClaimRewards? || op.SetMaxSupply?)
    ensures Apply(s, op).Ok? ==> Gains(s, Apply(s, op).value, op)
  {
    hide WriteBalance;
    if op.ClaimRewards? && ApplyClaim(s, op).Ok? {
      var k := (op.id, op.holder);
      WriteShifts(s, s.editions[op.id], k, Settle(s.balances[k], s.editions[op.id]).(unclaimed := 0));
    }
  }

  // ----- the counters -----

  datatype Tally = Tally(supply: int, burned: int, reserved: int)

  function Count(e: Edition): Tally { Tally(e.supply, e.burned, e.reserved) }

  function ParkedTotal(entries: seq<Entry>): nat {
    if entries == [] then 0 else (if entries[0].direct then 0 else entries[0].amount) + ParkedTotal(entries[1..])
  }

  /** What a message that succeeds does to an edition's counters. */
  function CounterGain(s: State, op: Op, id: EditionId): Tally {
    match op
    case MintUnits(ed, _, entries, _, _) =>
      if id == ed then Tally(DirectTotal(entries), 0, ParkedTotal(entries)) else Tally(0, 0, 0)
    case BurnUnits(ed, _, n) => if id == ed then Tally(0 - n, n, 0) else Tally(0, 0, 0)
    case Resolve(pid, outcome) =>
      if pid in s.pending && s.pending[pid].kind == UnitMint && s.pending[pid].edition == id then
        Tally(if outcome == Accepted then s.pending[pid].amount else 0, 0, 0 - s.pending[pid].amount)
      else Tally(0, 0, 0)
    case _ => Tally(0, 0, 0)
  }

  function Added(a: Tally, b: Tally): Tally { Tally(a.supply + b.supply, a.burned + b.burned, a.reserved + b.reserved) }

  ghost predicate CountersGain(s: State, t: State, op: Op) {
    forall id <- s.editions :: id in t.editions && Count(t.editions[id]) == Added(Count(s.editions[id]), CounterGain(s, op, id))
  }

  // The record primitives touch no counter but `holders`, and no saved edition.

  ghost predicate SameCounts(s: State, e: Edition, r: Result<(State, Edition)>) {
    r.Ok? ==> Count(r.value.1) == Count(e) && r.value.0.editions == s.editions
  }

  lemma WriteCount(s: State, e: Edition, k: BalanceKey, b: Balance)
    ensures SameCounts(s, e, WriteBalance(s, e, k, b))
  {
  }

  lemma DebitCount(s: State, e: Edition, k: BalanceKey, n: nat, fromLocked: bool)
    ensures SameCounts(s, e, Debit(s, e, k, n, fromLocked))
  {
    hide WriteBalance;
    if Debit(s, e, k, n, fromLocked).Ok? {
      var b := Settle(s.balances[k], e);
      WriteCount(s, e, k, if fromLocked then b.(locked := b.locked - n) else b.(amount := b.amount - n));
    }
  }

  lemma CreditCount(s: State, e: Edition, k: BalanceKey, n: nat, f: Funding)
    ensures SameCounts(s, e, Credit(s, e, k, n, f))
  {
    hide WriteBalance;
    forall s1: State, b: Balance
      ensures SameCounts(s1, e, WriteBalance(s1, e, k, b))
    {
      WriteCount(s1, e, k, b);
    }
  }

  lemma LockCount(s: State, e: Edition, k: BalanceKey, n: nat, unlock: bool)
    ensures SameCounts(s, e, LockUnits(s, e, k, n, unlock))
  {
    hide WriteBalance;
    forall b: Balance
      ensures SameCounts(s, e, WriteBalance(s, e, k, b))
    {
      WriteCount(s, e, k, b);
    }
  }

  lemma {:induction false} MintEachCounts(s: State, e: Edition, id: EditionId, minter: Address, entries: seq<Entry>,
                                          tokenDeposit: nat, inboxFee: nat)
    ensures MintEach(s, e, id, minter, entries, tokenDeposit, inboxFee).Ok? ==>
      var (t, e1) := MintEach(s, e, id, minter, entries, tokenDeposit, inboxFee).value;
      && Count(e1) == Added(Count(e), Tally(DirectTotal(entries), 0, ParkedTotal(entries)))
      && t.editions == s.editions
    decreases |entries|
  {
    hide Credit, Debit, LockUnits;
    if entries != [] && MintEach(s, e, id, minter, entries, tokenDeposit, inboxFee).Ok? {
      var x := entries[0];
      CreditCount(s, e, (id, x.recipient), x.amount, PaidBy(minter, tokenDeposit));
      var (s1, e1) := MintUnitsTo(s, e, id, minter, x.recipient, x.amount, x.direct, Terms(tokenDeposit, inboxFee, x.slotFree)).value;
      MintEachCounts(s1, e1, id, minter, entries[1..], tokenDeposit, inboxFee);
    }
  }

  lemma ReservedCovers(s: State, pid: nat)
    requires Inv(s) && pid in s.pending && s.pending[pid].kind == UnitMint
    ensures s.pending[pid].edition in s.editions
    ensures s.pending[pid].amount <= s.editions[s.pending[pid].edition].reserved <= HARD_MAX
  {
    var id := s.pending[pid].edition;
    SumBounds(s.pending, ReservedIn(id), pid);
    assert SettledOn(s.editions[id], s.balances, s.pending, Pool(s.coins, id), id);
  }

  lemma SupplyCovers(s: State, k: BalanceKey)
    requires Inv(s) && k in s.balances
    ensures k.0 in s.editions && 0 < s.balances[k].amount + s.balances[k].locked <= s.editions[k.0].supply <= HARD_MAX
  {
    SumBounds(s.balances, UnitsIn(k.0), k);
    assert SettledOn(s.editions[k.0], s.balances, s.pending, Pool(s.coins, k.0), k.0);
  }

  /** One edition saved with counters that moved by `d`. */
  ghost predicate Saved(s: State, t: State, id: EditionId, d: Tally) {
    && id in s.editions && id in t.editions && t.editions == s.editions[id := t.editions[id]]
    && Count(t.editions[id]) == Added(Count(s.editions[id]), d)
  }

  lemma ResolveCounts(s: State, pid: nat, outcome: Outcome)
    requires Inv(s) && ResolvePendingUnits(s, pid, outcome).Ok?
    ensures
      var p := s.pending[pid];
      var d := if p.kind == UnitTransfer then Tally(0, 0, 0)
               else Tally(if outcome == Accepted then p.amount else 0, 0, 0 - p.amount);
      Saved(s, ResolvePendingUnits(s, pid, outcome).value, p.edition, d)
  {
    hide Inv, Debit, Credit, LockUnits;
    var p := s.pending[pid];
    var s1 := s.(pending := s.pending - {pid});
    var e0, from, to, f := s.editions[p.edition], (p.edition, p.from), (p.edition, p.to), Escrowed(p.deposit, p.from);
    if p.kind == UnitMint {
      ReservedCovers(s, pid);
      var e := e0.(reserved := Wrap(e0.reserved - p.amount));
      if outcome == Accepted { CreditCount(s1, e.(supply := AddUnits(e.supply, p.amount).value), to, p.amount, f); }
    } else if outcome == Accepted {
      DebitCount(s1, e0, from, p.amount, true);
      var (s2, e2) := Debit(s1, e0, from, p.amount, true).value;
      CreditCount(s2, e2, to, p.amount, f);
    } else {
      LockCount(s1, e0, from, p.amount, true);
    }
  }

  lemma BurnCounts(s: State, op: Op)
    requires Inv(s) && op.BurnUnits? && ApplyBurn(s, op).Ok?
    ensures Saved(s, ApplyBurn(s, op).value, op.id, Tally(0 - op.amount, op.amount, 0))
  {
    hide Inv;
    SupplyCovers(s, (op.id, op.holder));
    hide Debit;
    DebitCount(s, s.editions[op.id], (op.id, op.holder), op.amount, false);
  }

  lemma TradeCounts(s: State, op: Op)
    requires (op.TransferUnits? || op.BuyUnits?) && Apply(s, op).Ok?
    ensures var id := if op.TransferUnits? then op.id else s.listings[op.listing].edition;
            Saved(s, Apply(s, op).value, id, Tally(0, 0, 0))
  {
    hide Debit, Credit, LockUnits;
    match op {
      case TransferUnits(id, sender, holder, to, n, direct, terms) =>
        var e, k := s.editions[id], (id, holder);
        if direct {
          DebitCount(s, e, k, n, false);
          var (s1, e1) := Debit(s, e, k, n, false).value;
          CreditCount(s1, e1, (id, to), n, PaidBy(sender, terms.tokenDeposit));
        } else {
          LockCount(s, e, k, n, false);
        }
      case BuyUnits(lid, buyer, n, tokenDeposit) =>
        var l := s.listings[lid];
        var e, k := s.editions[l.edition], (l.edition, l.seller);
        DebitCount(s, e, k, n, true);
        var (s1, e1) := Debit(s, e, k, n, true).value;
        CreditCount(s1, e1, (l.edition, buyer), n, PaidBy(buyer, tokenDeposit));
    }
  }

  lemma ListingCounts(s: State, op: Op)
    requires (op.ListUnits? || op.UpdateUnitListing? || op.DelistUnits?) && Apply(s, op).Ok?
    requires op.DelistUnits? ==> s.listings[op.listing].quantity > 0
    ensures var id := if op.ListUnits? then op.id else s.listings[op.listing].edition;
            Saved(s, Apply(s, op).value, id, Tally(0, 0, 0))
  {
    hide LockUnits;
    match op {
      case ListUnits(id, seller, n) => LockCount(s, s.editions[id], (id, seller), n, false);
      case UpdateUnitListing(lid, n) =>
        var l := s.listings[lid];
        var e, k := s.editions[l.edition], (l.edition, l.seller);
        if n > l.quantity { LockCount(s, e, k, n - l.quantity, false); }
        if n < l.quantity { LockCount(s, e, k, l.quantity - n, true); }
      case DelistUnits(lid) =>
        var l := s.listings[lid];
        LockCount(s.(listings := s.listings - {lid}), s.editions[l.edition], (l.edition, l.seller), l.quantity, true);
    }
  }

  lemma MintCounts(s: State, op: Op)
    requires op.MintUnits? && ApplyMint(s, op).Ok?
    ensures Saved(s, ApplyMint(s, op).value, op.id, Tally(DirectTotal(op.entries), 0, ParkedTotal(op.entries)))
  {
    hide MintEach;
    MintEachCounts(s, s.editions[op.id], op.id, op.minter, op.entries, op.tokenDeposit, op.inboxFee);
  }

  lemma StillCounts(s: State, op: Op)
    requires (op.CreateEdition? || op.FundEdition? || op.ClaimRewards? || op.SetMaxSupply?) && Apply(s, op).Ok?
    ensures CountersGain(s, Apply(s, op).value, op)
  {
  }

  lemma DelistCounts(s: State, op: Op)
    requires Inv(s) && op.DelistUnits? && Apply(s, op).Ok?
    ensures Saved(s, Apply(s, op).value, s.listings[op.listing].edition, Tally(0, 0, 0))
  {
    assert ListingsOk(s.listings, s.listingSeq, s.editions);
    hide Inv;
    ListingCounts(s, op);
  }

  /** Every message that succeeds moves the counters of every edition as the
      table says: only a burn adds to burned, and it adds what it takes off supply. */
  lemma CountersMove(s: State, op: Op)
    requires Inv(s) && Apply(s, op).Ok?
    ensures CountersGain(s, Apply(s, op).value, op)
  {
    hide Inv, ApplyMint, ApplyBurn, ApplyTransfer, ApplyBuy, ApplyList, ApplyUpdateListing, ApplyCreate, ApplyFund, ApplyClaim, ApplySetMaxSupply;
    match op {
      case MintUnits(_, _, _, _, _) => MintCounts(s, op);
      case BurnUnits(_, _, _) => BurnCounts(s, op);
      case Resolve(pid, outcome) => ResolveCounts(s, pid, outcome);
      case TransferUnits(_, _, _, _, _, _, _) => TradeCounts(s, op);
      case BuyUnits(_, _, _, _) => TradeCounts(s, op);
      case ListUnits(_, _, _) => ListingCounts(s, op);
      case UpdateUnitListing(_, _) => ListingCounts(s, op);
      case DelistUnits(_) => DelistCounts(s, op);
      case _ => StillCounts(s, op);
    }
  }

  // ----- who is paid -----

  /** Only `a`'s wallet changes, by `n`. */
  ghost predicate Paid(c: Coins, c1: Coins, a: Address, n: int) {
    forall j: Address :: Wallet(c1, j) == Wallet(c, j) + if j == a then n else 0
  }

  lemma WritePays(s: State, e: Edition, k: BalanceKey, b: Balance)
    requires b.amount <= HARD_MAX && b.locked <= HARD_MAX && k in s.balances && WriteBalance(s, e, k, b).Ok?
    ensures Paid(s.coins, WriteBalance(s, e, k, b).value.0.coins, k.1,
                 if b.amount + b.locked == 0 then b.deposit + b.unclaimed else 0)
  {
    assert Units(b) == b.amount + b.locked;
  }

  /** The last unit out of a record gives its owner the deposit and all it could claim. */
  lemma DebitPays(s: State, e: Edition, k: BalanceKey, n: nat, fromLocked: bool)
    requires Small(s.balances) && Debit(s, e, k, n, fromLocked).Ok?
    ensures k in s.balances
    ensures var b := s.balances[k];
            Paid(s.coins, Debit(s, e, k, n, fromLocked).value.0.coins, k.1,
                 if b.amount + b.locked == n then b.deposit + Claimable(b, e.rewardPerUnit) else 0)
  {
    hide WriteBalance, Claimable;
    var b := Settle(s.balances[k], e);
    WritePays(s, e, k, if fromLocked then b.(locked := b.locked - n) else b.(amount := b.amount - n));
  }

  /** Unlocking keeps the record, so it pays nobody. */
  lemma UnlockPays(s: State, e: Edition, k: BalanceKey, n: nat)
    requires Small(s.balances) && 0 < n && LockUnits(s, e, k, n, true).Ok?
    ensures Paid(s.coins, LockUnits(s, e, k, n, true).value.0.coins, k.1, 0)
  {
    hide WriteBalance;
    var b := s.balances[k];
    WritePays(s, e, k, b.(locked := b.locked - n, amount := b.amount + n));
  }

  lemma RefundPays(c: Coins, to: Address, n: nat)
    requires Refund(c, to, n).Ok?
    ensures Paid(c, Refund(c, to, n).value, to, n)
  {
  }

  lemma UnparkPays(s: State, pid: nat, outcome: Outcome)
    requires Small(s.balances) && pid in s.pending && 0 < s.pending[pid].amount && s.pending[pid].kind == UnitTransfer
    requires outcome != Accepted && ResolvePendingUnits(s, pid, outcome).Ok?
    ensures Paid(s.coins, ResolvePendingUnits(s, pid, outcome).value.coins, s.pending[pid].from, s.pending[pid].deposit)
  {
    hide LockUnits, Debit, Credit, Refund, Paid;
    var p := s.pending[pid];
    var s1, k := s.(pending := s.pending - {pid}), (p.edition, p.from);
    UnlockPays(s1, s.editions[p.edition], k, p.amount);
    var c := LockUnits(s1, s.editions[p.edition], k, p.amount, true).value.0.coins;
    RefundPays(c, p.from, p.deposit);
    PaidTwice(s.coins, c, Refund(c, p.from, p.deposit).value, p.from, 0, p.deposit);
  }

  /** An item that is not accepted gives its deposit back to its sender. */
  lemma ReturnPays(s: State, pid: nat, outcome: Outcome)
    requires Inv(s) && pid in s.pending && outcome != Accepted && ResolvePendingUnits(s, pid, outcome).Ok?
    ensures Paid(s.coins, ResolvePendingUnits(s, pid, outcome).value.coins, s.pending[pid].from, s.pending[pid].deposit)
  {
    LedgerRewards.InvFine(s);
    assert PendingOk(s.pending, s.pendingSeq, s.editions);
    hide Inv, LockUnits, Debit, Credit, Refund, Paid;
    var p := s.pending[pid];
    if p.kind == UnitTransfer {
      UnparkPays(s, pid, outcome);
    } else {
      RefundPays(s.coins, p.from, p.deposit);
    }
  }

  lemma PaidTwice(c: Coins, c1: Coins, c2: Coins, a: Address, m: int, n: int)
    requires Paid(c, c1, a, m) && Paid(c1, c2, a, n)
    ensures Paid(c, c2, a, m + n)
  {
    hide Wallet;
  }

  lemma SameWallets(c: Coins, c1: Coins, c2: Coins, a: Address, n: int)
    requires Paid(c, c1, a, n) && c2.wallets == c1.wallets
    ensures Paid(c, c2, a, n)
  {
  }

  /** A claim pays its payee exactly what the record could claim, and leaves it nothing to claim. */
  lemma ClaimPays(s: State, op: Op)
    requires Inv(s) && op.ClaimRewards? && ApplyClaim(s, op).Ok?
    ensures (op.id, op.holder) in s.balances
    ensures
      var k := (op.id, op.holder);
      var t, rate := ApplyClaim(s, op).value, s.editions[op.id].rewardPerUnit;
      && Paid(s.coins, t.coins, op.payee, Claimable(s.balances[k], rate))
      && k in t.balances && Claimable(t.balances[k], rate) == 0
  {
    var k, e := (op.id, op.holder), s.editions[op.id];
    LedgerRewards.InvFine(s);
    SupplyCovers(s, k);
    hide Inv, Wallet, Paid;
    var b := Settle(s.balances[k], e);
    WriteLive(s, e, k, b.(unclaimed := 0));
    RefundPays(s.coins, op.payee, b.unclaimed);
    SameWallets(s.coins, Refund(s.coins, op.payee, b.unclaimed).value, ApplyClaim(s, op).value.coins, op.payee, b.unclaimed);
  }
}
