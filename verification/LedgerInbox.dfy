/** What is parked and what is listed, for whom: each message's effect on the inbox,
    the market and the editions' caps and rates, as tables beside the messages' own
    code; and what becomes of a parked item. */
module LedgerInbox {
  import opened Ledger
  import opened MapSums
  import opened LedgerInvariant
  import opened LedgerMessages
  import opened LedgerHoldings
  import LedgerRewards

  // ----- the inbox -----

  /** One item for each parked entry of a batch, from the minter to the entry's recipient. */
  function ParkedEntries(id: EditionId, minter: Address, entries: seq<Entry>, deposit: nat): seq<Pending> {
    if entries == [] then []
    else
      var x := entries[0];
      (if x.direct then [] else [Pending(UnitMint, id, minter, x.recipient, x.amount, deposit)])
      + ParkedEntries(id, minter, entries[1..], deposit)
  }

  /** What a message that succeeds adds to the inbox. */
  function NewItems(op: Op): seq<Pending> {
    match op
    case MintUnits(id, minter, entries, deposit, _) => ParkedEntries(id, minter, entries, deposit)
    case TransferUnits(id, _, holder, to, n, direct, terms) =>
      if direct then [] else [Pending(UnitTransfer, id, holder, to, n, terms.tokenDeposit)]
    case _ => []
  }

  predicate Ordered<V>(m: map<nat, V>, last: nat) { forall i <- m :: i <= last }

  /** The items `xs` come in under the ids after `last`, and nothing else changes. */
  ghost predicate Joins<V>(m: map<nat, V>, last: nat, xs: seq<V>, m1: map<nat, V>) {
    && (forall i: nat :: i in m1 <==> i in m || last < i <= last + |xs|)
    && (forall i <- m :: i in m1 && m1[i] == m[i])
    && (forall j :: 0 <= j < |xs| ==> last + 1 + j in m1 && m1[last + 1 + j] == xs[j])
  }

  lemma JoinsNone<V>(m: map<nat, V>, last: nat)
    ensures Joins(m, last, [], m)
  {}

  lemma JoinsOne<V>(m: map<nat, V>, last: nat, x: V)
    requires Ordered(m, last)
    ensures Joins(m, last, [x], m[last + 1 := x]) && Ordered(m[last + 1 := x], last + 1)
  {}

  lemma JoinsMore<V>(m: map<nat, V>, last: nat, xs: seq<V>, m1: map<nat, V>, ys: seq<V>, m2: map<nat, V>)
    requires Joins(m, last, xs, m1) && Joins(m1, last + |xs|, ys, m2)
    ensures Joins(m, last, xs + ys, m2)
  {
    forall j | 0 <= j < |xs + ys|
      ensures last + 1 + j in m2 && m2[last + 1 + j] == (xs + ys)[j]
    {
      if j >= |xs| {
        var l := j - |xs|;
        assert last + |xs| + 1 + l == last + 1 + j && (xs + ys)[j] == ys[l];
      }
    }
  }

  ghost predicate InboxGrows(s: State, xs: seq<Pending>, t: State) {
    t.pendingSeq == s.pendingSeq + |xs| && Joins(s.pending, s.pendingSeq, xs, t.pending) && Ordered(t.pending, t.pendingSeq)
  }

  lemma ParkGrows(s: State, kind: Kind, id: EditionId, payer: Address, from: Address, to: Address, amount: nat, t: Terms)
    requires Ordered(s.pending, s.pendingSeq)
    ensures ParkUnits(s, kind, id, payer, from, to, amount, t).Ok? ==>
      var s1 := ParkUnits(s, kind, id, payer, from, to, amount, t).value.0;
      InboxGrows(s, [Pending(kind, id, from, to, amount, t.tokenDeposit)], s1) && s1.editions == s.editions
      && s1.listings == s.listings && s1.listingSeq == s.listingSeq && s1.balances == s.balances
  {
    JoinsOne(s.pending, s.pendingSeq, Pending(kind, id, from, to, amount, t.tokenDeposit));
    hide Joins, BurnFrom, Collect;
  }

  lemma GrowsMore(s: State, xs: seq<Pending>, t: State, ys: seq<Pending>, u: State)
    requires InboxGrows(s, xs, t) && InboxGrows(t, ys, u)
    ensures InboxGrows(s, xs + ys, u)
  {
    JoinsMore(s.pending, s.pendingSeq, xs, t.pending, ys, u.pending);
  }

  lemma GrowsNone(s: State, t: State)
    requires Ordered(s.pending, s.pendingSeq) && t.pending == s.pending && t.pendingSeq == s.pendingSeq
    ensures InboxGrows(s, [], t)
  {
    JoinsNone(s.pending, s.pendingSeq);
  }

  /** What minting leaves alone of an edition. */
  predicate SameTerms(e: Edition, e1: Edition) { e1.maxSupply == e.maxSupply && e1.rewardPerUnit == e.rewardPerUnit }

  lemma MintToGrows(s: State, e: Edition, id: EditionId, minter: Address, x: Entry, t: Terms)
    requires Ordered(s.pending, s.pendingSeq)
    ensures MintUnitsTo(s, e, id, minter, x.recipient, x.amount, x.direct, t).Ok? ==>
      var (s1, e1) := MintUnitsTo(s, e, id, minter, x.recipient, x.amount, x.direct, t).value;
      && InboxGrows(s, if x.direct then [] else [Pending(UnitMint, id, minter, x.recipient, x.amount, t.tokenDeposit)], s1)
      && s1.editions == s.editions && s1.listings == s.listings && s1.listingSeq == s.listingSeq && SameTerms(e, e1)
  {
    hide Credit, ParkUnits, InboxGrows, AddUnits;
    if MintUnitsTo(s, e, id, minter, x.recipient, x.amount, x.direct, t).Ok? {
      if x.direct {
        CreditFrame(s, e, (id, x.recipient), x.amount, PaidBy(minter, t.tokenDeposit));
        GrowsNone(s, MintUnitsTo(s, e, id, minter, x.recipient, x.amount, x.direct, t).value.0);
      } else {
        ParkGrows(s, UnitMint, id, minter, minter, x.recipient, x.amount, t);
      }
    }
  }

  lemma {:induction false} MintEachGrows(s: State, e: Edition, id: EditionId, minter: Address, entries: seq<Entry>,
                                         tokenDeposit: nat, inboxFee: nat)
    requires Ordered(s.pending, s.pendingSeq)
    ensures MintEach(s, e, id, minter, entries, tokenDeposit, inboxFee).Ok? ==>
      var (t, e1) := MintEach(s, e, id, minter, entries, tokenDeposit, inboxFee).value;
      && InboxGrows(s, ParkedEntries(id, minter, entries, tokenDeposit), t)
      && t.editions == s.editions && t.listings == s.listings && t.listingSeq == s.listingSeq && SameTerms(e, e1)
    decreases |entries|
  {
    hide MintUnitsTo, InboxGrows, Ordered;
    if entries == [] {
      GrowsNone(s, s);
    } else if MintEach(s, e, id, minter, entries, tokenDeposit, inboxFee).Ok? {
      var x := entries[0];
      var terms := Terms(tokenDeposit, inboxFee, x.slotFree);
      MintToGrows(s, e, id, minter, x, terms);
      var (s1, e1) := MintUnitsTo(s, e, id, minter, x.recipient, x.amount, x.direct, terms).value;
      GrowsOrdered(s, if x.direct then [] else [Pending(UnitMint, id, minter, x.recipient, x.amount, tokenDeposit)], s1);
      MintEachGrows(s1, e1, id, minter, entries[1..], tokenDeposit, inboxFee);
      var t := MintEach(s1, e1, id, minter, entries[1..], tokenDeposit, inboxFee).value.0;
      GrowsMore(s, if x.direct then [] else [Pending(UnitMint, id, minter, x.recipient, x.amount, tokenDeposit)], s1,
                ParkedEntries(id, minter, entries[1..], tokenDeposit), t);
    }
  }

  lemma GrowsOrdered(s: State, xs: seq<Pending>, t: State)
    requires InboxGrows(s, xs, t)
    ensures Ordered(t.pending, t.pendingSeq)
  {}

  // ----- the tables -----

  /** What a message that succeeds leaves of the inbox it found. */
  function Resolved(s: State, op: Op): State {
    if op.Resolve? then s.(pending := s.pending - {op.item}) else s
  }

  /** The market after a message that succeeds: a new listing of the seller's, a new
      quantity, a sale off it, or the listing gone. */
  function MarketAfter(s: State, op: Op): map<nat, Listing> {
    match op
    case ListUnits(id, seller, n) => s.listings[s.listingSeq + 1 := Listing(id, seller, n)]
    case UpdateUnitListing(lid, n) =>
      if lid in s.listings then s.listings[lid := Listing(s.listings[lid].edition, s.listings[lid].seller, n)] else s.listings
    case BuyUnits(lid, _, n, _) =>
      if lid !in s.listings then s.listings
      else if s.listings[lid].quantity <= n then s.listings - {lid}
      else s.listings[lid := Listing(s.listings[lid].edition, s.listings[lid].seller, s.listings[lid].quantity - n)]
    case DelistUnits(lid) => s.listings - {lid}
    case _ => s.listings
  }

  function CapAfter(s: State, op: Op, id: EditionId): nat {
    match op
    case CreateEdition(ed, cap, _, _) => if id == ed then cap else if id in s.editions then s.editions[id].maxSupply else 0
    case SetMaxSupply(ed, cap) => if id == ed then cap else if id in s.editions then s.editions[id].maxSupply else 0
    case _ => if id in s.editions then s.editions[id].maxSupply else 0
  }

  /** Only a funding raises a rate, by the payment's scaled share of each unit. */
  function RateAfter(s: State, op: Op, id: EditionId): nat {
    if id !in s.editions then 0
    else if op.FundEdition? && id == op.id && s.editions[id].supply > 0
    then s.editions[id].rewardPerUnit + 1_000_000_000_000_000_000 * op.amount / s.editions[id].supply
    else s.editions[id].rewardPerUnit
  }

  ghost predicate EditionsMove(s: State, op: Op, t: State) {
    && t.editions.Keys == s.editions.Keys + (if op.CreateEdition? then {op.id} else {})
    && forall id <- t.editions :: t.editions[id].maxSupply == CapAfter(s, op, id) && t.editions[id].rewardPerUnit == RateAfter(s, op, id)
  }

  ghost predicate ItemsMove(s: State, op: Op, t: State) {
    && InboxGrows(Resolved(s, op), NewItems(op), t)
    && t.listings == MarketAfter(s, op) && t.listingSeq == s.listingSeq + (if op.ListUnits? then 1 else 0)
    && EditionsMove(s, op, t)
  }

  /** One edition saved whose cap and rate did not move, over stores that did not. */
  lemma SavedMoves(s: State, s1: State, id: EditionId, e1: Edition, op: Op)
    requires id in s.editions && s1.editions == s.editions && SameTerms(s.editions[id], e1)
    requires !op.CreateEdition? && !op.FundEdition? && !op.SetMaxSupply?
    ensures EditionsMove(s, op, SaveEdition(s1, id, e1))
  {
  }

  lemma StillMoves(s: State, t: State, op: Op)
    requires t.editions == s.editions && !op.CreateEdition? && !op.FundEdition? && !op.SetMaxSupply?
    ensures EditionsMove(s, op, t)
  {
  }

  // ----- each message -----

  lemma MintItems(s: State, op: Op)
    requires Ordered(s.pending, s.pendingSeq) && op.MintUnits? && ApplyMint(s, op).Ok?
    ensures ItemsMove(s, op, ApplyMint(s, op).value)
  {
    hide MintEach, InboxGrows, EditionsMove;
    MintEachGrows(s, s.editions[op.id], op.id, op.minter, op.entries, op.tokenDeposit, op.inboxFee);
    var (s1, e1) := MintEach(s, s.editions[op.id], op.id, op.minter, op.entries, op.tokenDeposit, op.inboxFee).value;
    SavedMoves(s, s1, op.id, e1, op);
    SavedGrows(s, NewItems(op), s1, op.id, e1);
  }

  lemma SavedGrows(s: State, xs: seq<Pending>, s1: State, id: EditionId, e: Edition)
    requires InboxGrows(s, xs, s1)
    ensures InboxGrows(s, xs, SaveEdition(s1, id, e))
  {}

  lemma TransferItems(s: State, op: Op)
    requires Ordered(s.pending, s.pendingSeq) && op.TransferUnits? && ApplyTransfer(s, op).Ok?
    ensures ItemsMove(s, op, ApplyTransfer(s, op).value)
  {
    hide Debit, Credit, LockUnits, ParkUnits, InboxGrows, EditionsMove;
    var e, k := s.editions[op.id], (op.id, op.holder);
    if op.direct {
      DebitFrame(s, e, k, op.amount, false);
      var (s1, e1) := Debit(s, e, k, op.amount, false).value;
      var f := PaidBy(op.sender, op.terms.tokenDeposit);
      CreditFrame(s1, e1, (op.id, op.to), op.amount, f);
      var (s2, e2) := Credit(s1, e1, (op.id, op.to), op.amount, f).value;
      SavedMoves(s, s2, op.id, e2, op);
      GrowsNone(s, SaveEdition(s2, op.id, e2));
    } else {
      LockFrame(s, e, k, op.amount, false);
      var (s1, e1) := LockUnits(s, e, k, op.amount, false).value;
      ParkGrows(s1, UnitTransfer, op.id, op.sender, op.holder, op.to, op.amount, op.terms);
      var (s2, pid) := ParkUnits(s1, UnitTransfer, op.id, op.sender, op.holder, op.to, op.amount, op.terms).value;
      SavedMoves(s, s2, op.id, e1, op);
      GrowsNone(s, s1);
      GrowsMore(s, [], s1, NewItems(op), s2);
      assert [] + NewItems(op) == NewItems(op);
      SavedGrows(s, NewItems(op), s2, op.id, e1);
    }
  }

  lemma ListingItems(s: State, op: Op)
    requires Ordered(s.pending, s.pendingSeq) && (op.ListUnits? || op.UpdateUnitListing? || op.DelistUnits?) && Apply(s, op).Ok?
    ensures ItemsMove(s, op, Apply(s, op).value)
  {
    hide LockUnits, InboxGrows, EditionsMove;
    match op {
      case ListUnits(id, seller, n) =>
        LockFrame(s, s.editions[id], (id, seller), n, false);
        var (s1, e1) := LockUnits(s, s.editions[id], (id, seller), n, false).value;
        SavedMoves(s, s1.(listings := MarketAfter(s, op), listingSeq := s.listingSeq + 1), id, e1, op);
      case UpdateUnitListing(lid, n) =>
        var l := s.listings[lid];
        var e, k := s.editions[l.edition], (l.edition, l.seller);
        RelockFrame(s, e, k, l.quantity, n);
        hide Relock;
        var (s1, e1) := Relock(s, e, k, l.quantity, n).value;
        SavedMoves(s, s1.(listings := MarketAfter(s, op)), l.edition, e1, op);
      case DelistUnits(lid) =>
        RemoveItems(s, lid);
    }
    GrowsNone(s, Apply(s, op).value);
  }

  lemma RelockFrame(s: State, e: Edition, k: BalanceKey, was: nat, wanted: nat)
    ensures Relock(s, e, k, was, wanted).Ok? ==>
      var (t, e1) := Relock(s, e, k, was, wanted).value;
      t.listings == s.listings && t.listingSeq == s.listingSeq && t.pending == s.pending
      && t.pendingSeq == s.pendingSeq && t.editions == s.editions && e1 == e.(holders := e1.holders)
  {
    hide LockUnits;
    if wanted > was { LockFrame(s, e, k, wanted - was, false); }
    if wanted < was { LockFrame(s, e, k, was - wanted, true); }
  }

  lemma RemoveItems(s: State, lid: nat)
    requires RemoveUnitListing(s, lid).Ok?
    ensures var t := RemoveUnitListing(s, lid).value;
      t.listings == s.listings - {lid} && t.listingSeq == s.listingSeq && t.pending == s.pending && t.pendingSeq == s.pendingSeq
      && EditionsMove(s, DelistUnits(lid), t)
  {
    hide LockUnits, EditionsMove;
    var l, s1 := s.listings[lid], s.(listings := s.listings - {lid});
    if l.quantity == 0 {
      StillMoves(s, s1, DelistUnits(lid));
    } else {
      LockFrame(s1, s.editions[l.edition], (l.edition, l.seller), l.quantity, true);
      var (s2, e2) := LockUnits(s1, s.editions[l.edition], (l.edition, l.seller), l.quantity, true).value;
      SavedMoves(s, s2, l.edition, e2, DelistUnits(lid));
    }
  }

  lemma BuyItems(s: State, op: Op)
    requires Ordered(s.pending, s.pendingSeq) && op.BuyUnits? && ApplyBuy(s, op).Ok?
    ensures ItemsMove(s, op, ApplyBuy(s, op).value)
  {
    hide Debit, Credit, LockUnits, InboxGrows, EditionsMove;
    var l := s.listings[op.listing];
    var e, k := s.editions[l.edition], (l.edition, l.seller);
    DebitFrame(s, e, k, op.amount, true);
    var (s1, e1) := Debit(s, e, k, op.amount, true).value;
    var f := PaidBy(op.buyer, op.tokenDeposit);
    CreditFrame(s1, e1, (l.edition, op.buyer), op.amount, f);
    var (s2, e2) := Credit(s1, e1, (l.edition, op.buyer), op.amount, f).value;
    SavedMoves(s, s2, l.edition, e2, op);
    var t := ApplyBuy(s, op).value;
    assert t.editions == SaveEdition(s2, l.edition, e2).editions;
    StillSaved(s, op, SaveEdition(s2, l.edition, e2), t);
    var rest := l.(quantity := l.quantity - op.amount);
    assert s.listings[op.listing := rest] - {op.listing} == s.listings - {op.listing};
    GrowsNone(s, t);
  }

  lemma StillSaved(s: State, op: Op, t: State, u: State)
    requires EditionsMove(s, op, t) && u.editions == t.editions
    ensures EditionsMove(s, op, u)
  {}

  lemma BurnItems(s: State, op: Op)
    requires Ordered(s.pending, s.pendingSeq) && op.BurnUnits? && ApplyBurn(s, op).Ok?
    ensures ItemsMove(s, op, ApplyBurn(s, op).value)
  {
    hide Debit, InboxGrows, EditionsMove;
    var e, k := s.editions[op.id], (op.id, op.holder);
    DebitFrame(s, e, k, op.amount, false);
    var (s1, e1) := Debit(s, e, k, op.amount, false).value;
    SavedMoves(s, s1, op.id, ApplyBurn(s, op).value.editions[op.id], op);
    GrowsNone(s, ApplyBurn(s, op).value);
  }

  lemma ResolveItems(s: State, op: Op)
    requires Ordered(s.pending, s.pendingSeq) && op.Resolve? && Apply(s, op).Ok?
    ensures ItemsMove(s, op, Apply(s, op).value)
  {
    hide Debit, Credit, LockUnits, Refund, InboxGrows, EditionsMove;
    var pu := s.pending[op.item];
    var s1, e0 := s.(pending := s.pending - {op.item}), s.editions[pu.edition];
    var e := if pu.kind == UnitMint then e0.(reserved := Wrap(e0.reserved - pu.amount)) else e0;
    var t := Apply(s, op).value;
    var from, to, f := (pu.edition, pu.from), (pu.edition, pu.to), Escrowed(pu.deposit, pu.from);
    if op.outcome == Accepted {
      DebitFrame(s1, e, from, pu.amount, true);
      var (s2, e2) := if pu.kind == UnitTransfer then Debit(s1, e, from, pu.amount, true).value
                      else (s1, e.(supply := AddUnits(e.supply, pu.amount).value));
      CreditFrame(s2, e2, to, pu.amount, f);
      var (s3, e3) := Credit(s2, e2, to, pu.amount, f).value;
      assert t == SaveEdition(s3, pu.edition, e3);
      SavedMoves(s, s3, pu.edition, e3, op);
    } else {
      LockFrame(s1, e, from, pu.amount, true);
      var (s2, e2) := if pu.kind == UnitTransfer then LockUnits(s1, e, from, pu.amount, true).value else (s1, e);
      var c3 := Refund(s2.coins, pu.from, pu.deposit).value;
      assert t == SaveEdition(s2.(coins := c3), pu.edition, e2);
      SavedMoves(s, s2.(coins := c3), pu.edition, e2, op);
    }
    assert Ordered(s1.pending, s1.pendingSeq);
    GrowsNone(s1, t);
  }

  lemma TermsItems(s: State, op: Op)
    requires Ordered(s.pending, s.pendingSeq) && (op.CreateEdition? || op.FundEdition? || op.SetMaxSupply?) && Apply(s, op).Ok?
    ensures ItemsMove(s, op, Apply(s, op).value)
  {
    hide InboxGrows, BurnFrom, Collect;
    GrowsNone(s, Apply(s, op).value);
  }

  lemma ClaimItems(s: State, op: Op)
    requires Ordered(s.pending, s.pendingSeq) && op.ClaimRewards? && Apply(s, op).Ok?
    ensures ItemsMove(s, op, Apply(s, op).value)
  {
    hide InboxGrows, WriteBalance, EditionsMove;
    var k := (op.id, op.holder);
    WriteFrame(s, s.editions[op.id], k, Settle(s.balances[k], s.editions[op.id]).(unclaimed := 0));
    StillMoves(s, Apply(s, op).value, op);
    GrowsNone(s, Apply(s, op).value);
  }

  /** Every message that succeeds adds to the inbox exactly the items it parks, each
      with the message's own parties, amount and deposit; changes the market
      exactly as it says; and moves only the cap or the rate it is about. */
  lemma ItemsFollow(s: State, op: Op)
    requires Inv(s) && Apply(s, op).Ok?
    ensures ItemsMove(s, op, Apply(s, op).value)
  {
    assert Ordered(s.pending, s.pendingSeq);
    hide Inv, ItemsMove, ApplyMint, ApplyTransfer, ApplyBuy, ApplyBurn;
    match op {
      case MintUnits(_, _, _, _, _) => MintItems(s, op);
      case TransferUnits(_, _, _, _, _, _, _) => TransferItems(s, op);
      case BuyUnits(_, _, _, _) => BuyItems(s, op);
      case BurnUnits(_, _, _) => BurnItems(s, op);
      case Resolve(_, _) => ResolveItems(s, op);
      case ClaimRewards(_, _, _) => ClaimItems(s, op);
      case ListUnits(_, _, _) => ListingItems(s, op);
      case UpdateUnitListing(_, _) => ListingItems(s, op);
      case DelistUnits(_) => ListingItems(s, op);
      case _ => TermsItems(s, op);
    }
  }

  // ----- from parking to resolving -----

  predicate Resolves(op: Op, pid: nat) { op.Resolve? && op.item == pid }

  predicate LeftAlone(ops: seq<Op>, pid: nat) { forall i :: 0 <= i < |ops| ==> !Resolves(ops[i], pid) }

  lemma ItemStays(s: State, op: Op, pid: nat)
    requires Inv(s) && pid in s.pending && !Resolves(op, pid)
    ensures pid in Deliver(s, op).pending && Deliver(s, op).pending[pid] == s.pending[pid]
  {
    hide Inv, Apply;
    if Apply(s, op).Ok? { ItemsFollow(s, op); }
  }

  /** An item waits unchanged until a message resolves it. */
  lemma {:induction false} ItemWaits(s: State, ops: seq<Op>, pid: nat)
    requires Inv(s) && pid in s.pending && LeftAlone(ops, pid)
    ensures Inv(Run(s, ops)) && pid in Run(s, ops).pending && Run(s, ops).pending[pid] == s.pending[pid]
    decreases |ops|
  {
    hide Inv, Deliver;
    if ops != [] {
      var last := |ops| - 1;
      ItemWaits(s, ops[..last], pid);
      ApplyKeeps(Run(s, ops[..last]), ops[last]);
      ItemStays(Run(s, ops[..last]), ops[last], pid);
    }
  }

  /** What one change does to every holder's units. */
  ghost predicate Changes(m: Balances, m1: Balances, gain: BalanceKey -> Shift) {
    forall k: BalanceKey ::
      && RecordAt(m1, k).amount == RecordAt(m, k).amount + gain(k).free
      && RecordAt(m1, k).locked == RecordAt(m, k).locked + gain(k).locked
  }

  ghost predicate Waits(u: State, pid: nat, item: Pending) { pid in u.pending && u.pending[pid] == item }

  /** The `j`-th item a message parks waits with the message's own terms however many
      others follow, and can then be resolved with any outcome. */
  lemma ParkedWaits(s: State, op: Op, j: nat, item: Pending, ops: seq<Op>, outcome: Outcome)
    requires Inv(s) && Apply(s, op).Ok? && j < |NewItems(op)| && NewItems(op)[j] == item
    requires LeftAlone(ops, s.pendingSeq + 1 + j)
    ensures var u := Run(Deliver(s, op), ops);
      Inv(u) && Waits(u, s.pendingSeq + 1 + j, item) && ItemDoes(u, s.pendingSeq + 1 + j, outcome, item)
  {
    hide Inv, Apply, ItemGain, NewItems;
    var pid := s.pendingSeq + 1 + j;
    ItemsFollow(s, op);
    ApplyKeeps(s, op);
    ItemWaits(Deliver(s, op), ops, pid);
    ItemMoves(Run(Deliver(s, op), ops), pid, outcome);
  }

  /** The item resolves, and moves units as an item on its terms does. */
  ghost predicate ItemDoes(u: State, pid: nat, outcome: Outcome, item: Pending) {
    && Apply(u, Resolve(pid, outcome)).Ok?
    && Changes(u.balances, Apply(u, Resolve(pid, outcome)).value.balances, k => ItemGain(item, outcome, k))
  }

  lemma Each(s: State, t: State, op: Op, k: BalanceKey)
    requires Gains(s, t, op)
    ensures GainsAt(s, t, op, k)
  {}

  lemma ItemMoves(u: State, pid: nat, outcome: Outcome)
    requires Inv(u) && pid in u.pending
    ensures ItemDoes(u, pid, outcome, u.pending[pid])
  {
    hide Inv, ItemGain, ResolvePendingUnits;
    ResolveSucceeds(u, pid, outcome);
    UnitsMove(u, Resolve(pid, outcome));
    var v := Apply(u, Resolve(pid, outcome)).value;
    forall k: BalanceKey
      ensures RecordAt(v.balances, k).amount == RecordAt(u.balances, k).amount + ItemGain(u.pending[pid], outcome, k).free
      ensures RecordAt(v.balances, k).locked == RecordAt(u.balances, k).locked + ItemGain(u.pending[pid], outcome, k).locked
    {
      assert Gains(u, v, Resolve(pid, outcome));
      assert GainsAt(u, v, Resolve(pid, outcome), k) by { Each(u, v, Resolve(pid, outcome), k); }
    }
  }

  /** A parked transfer, accepted after any other messages, hands the units the sender
      set aside to the recipient it named. */
  lemma ParkedTransferAccepted(s: State, op: Op, ops: seq<Op>)
    requires Inv(s) && op.TransferUnits? && !op.direct && Apply(s, op).Ok? && LeftAlone(ops, s.pendingSeq + 1)
    ensures
      var u := Run(Deliver(s, op), ops);
      && Apply(u, Resolve(s.pendingSeq + 1, Accepted)).Ok?
      && HandedOver(u.balances, Apply(u, Resolve(s.pendingSeq + 1, Accepted)).value.balances, op.id, op.holder, op.to, op.amount, true)
  {
    hide Inv, Apply, Handed, RecordAt, Run;
    ParkedWaits(s, op, 0, TransferItem(op), ops, Accepted);
  }

  function TransferItem(op: Op): Pending
    requires op.TransferUnits?
  {
    Pending(UnitTransfer, op.id, op.holder, op.to, op.amount, op.terms.tokenDeposit)
  }

  /** Accepted at once, it is a direct transfer. */
  lemma ParkedIsDirect(s: State, op: Op)
    requires Inv(s) && op.TransferUnits? && !op.direct && Apply(s, op).Ok?
    ensures
      var t := Deliver(s, op);
      && Apply(t, Resolve(t.pendingSeq, Accepted)).Ok?
      && HandedOver(s.balances, Apply(t, Resolve(t.pendingSeq, Accepted)).value.balances, op.id, op.holder, op.to, op.amount, false)
  {
    hide Inv, Apply, HandedOver, Gains, Changes;
    var t := Deliver(s, op);
    ParkedTransferAccepted(s, op, []);
    assert Run(t, []) == t;
    ItemsFollow(s, op);
    UnitsMove(s, op);
    ParkingLocks(s, t, op);
    LockThenHand(s.balances, t.balances, Apply(t, Resolve(t.pendingSeq, Accepted)).value.balances, op.id, op.holder, op.to, op.amount);
  }

  lemma ParkingLocks(s: State, t: State, op: Op)
    requires Gains(s, t, op) && op.TransferUnits? && !op.direct
    ensures Changes(s.balances, t.balances, k => Only(k, op.id, op.holder, Shift(0 - op.amount, op.amount)))
  {
    hide RecordAt, Only;
    forall k: BalanceKey
      ensures RecordAt(t.balances, k).amount == RecordAt(s.balances, k).amount + Only(k, op.id, op.holder, Shift(0 - op.amount, op.amount)).free
      ensures RecordAt(t.balances, k).locked == RecordAt(s.balances, k).locked + Only(k, op.id, op.holder, Shift(0 - op.amount, op.amount)).locked
    {
      Each(s, t, op, k);
    }
  }

  lemma LockThenHand(m: Balances, m1: Balances, m2: Balances, id: EditionId, from: Address, to: Address, n: nat)
    requires Changes(m, m1, k => Only(k, id, from, Shift(0 - n, n))) && HandedOver(m1, m2, id, from, to, n, true)
    ensures HandedOver(m, m2, id, from, to, n, false)
  {
    hide RecordAt, Only, Handed;
    forall k: BalanceKey
      ensures RecordAt(m2, k).amount == RecordAt(m, k).amount + Handed(k, id, from, to, n, false).free
      ensures RecordAt(m2, k).locked == RecordAt(m, k).locked + Handed(k, id, from, to, n, false).locked
    {
      LockedHand(k, id, from, to, n);
      assert RecordAt(m1, k).amount == RecordAt(m, k).amount + Only(k, id, from, Shift(0 - n, n)).free;
    }
  }

  lemma LockedHand(k: BalanceKey, id: EditionId, from: Address, to: Address, n: nat)
    ensures Plus(Only(k, id, from, Shift(0 - n, n)), Handed(k, id, from, to, n, true)) == Handed(k, id, from, to, n, false)
  {
    hide Only;
    OnlyTwice(k, id, from, Shift(0 - n, n), Shift(0, 0 - n));
  }

  lemma OnlyTwice(k: BalanceKey, id: EditionId, a: Address, d: Shift, d1: Shift)
    ensures Plus(Only(k, id, a, d), Only(k, id, a, d1)) == Only(k, id, a, Plus(d, d1))
  {
    if k.0 == id && k.1 == a {
    }
  }

  /** Rejected, cancelled or expired instead, the units are free for the holder again. */
  lemma ParkedTransferReturned(s: State, op: Op, ops: seq<Op>, outcome: Outcome)
    requires Inv(s) && op.TransferUnits? && !op.direct && Apply(s, op).Ok? && LeftAlone(ops, s.pendingSeq + 1)
    requires outcome != Accepted
    ensures
      var u := Run(Deliver(s, op), ops);
      && Apply(u, Resolve(s.pendingSeq + 1, outcome)).Ok?
      && Changes(u.balances, Apply(u, Resolve(s.pendingSeq + 1, outcome)).value.balances,
                 k => Only(k, op.id, op.holder, Shift(op.amount, 0 - op.amount)))
  {
    hide Inv, Apply, RecordAt, Run;
    ParkedWaits(s, op, 0, TransferItem(op), ops, outcome);
  }

  /** How many of the first `i` entries are parked. */
  function ParkedBefore(entries: seq<Entry>, i: nat): nat
    requires i <= |entries|
  {
    if i == 0 then 0 else (if entries[0].direct then 0 else 1) + ParkedBefore(entries[1..], i - 1)
  }

  lemma {:induction false} EntryParked(id: EditionId, minter: Address, entries: seq<Entry>, deposit: nat, i: nat)
    requires i < |entries| && !entries[i].direct
    ensures var items, j := ParkedEntries(id, minter, entries, deposit), ParkedBefore(entries, i);
      j < |items| && items[j] == Pending(UnitMint, id, minter, entries[i].recipient, entries[i].amount, deposit)
    decreases |entries|
  {
    if i > 0 { EntryParked(id, minter, entries[1..], deposit, i - 1); }
  }

  /** A parked entry of a batch, accepted after any other messages, gives its recipient
      its amount, and nobody else anything. */
  lemma ParkedMintAccepted(s: State, op: Op, i: nat, ops: seq<Op>)
    requires Inv(s) && op.MintUnits? && Apply(s, op).Ok? && i < |op.entries| && !op.entries[i].direct
    requires LeftAlone(ops, s.pendingSeq + 1 + ParkedBefore(op.entries, i))
    ensures
      var pid, u := s.pendingSeq + 1 + ParkedBefore(op.entries, i), Run(Deliver(s, op), ops);
      && Apply(u, Resolve(pid, Accepted)).Ok?
      && Changes(u.balances, Apply(u, Resolve(pid, Accepted)).value.balances,
                 k => Only(k, op.id, op.entries[i].recipient, Shift(op.entries[i].amount, 0)))
  {
    hide Inv, Apply, RecordAt, Run, ParkedBefore;
    EntryParked(op.id, op.minter, op.entries, op.tokenDeposit, i);
    var x := op.entries[i];
    ParkedWaits(s, op, ParkedBefore(op.entries, i), Pending(UnitMint, op.id, op.minter, x.recipient, x.amount, op.tokenDeposit), ops, Accepted);
  }
}
