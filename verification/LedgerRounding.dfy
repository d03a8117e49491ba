/** A run in which settling loses a coin: one of two holders claims after each of
    two payments of one coin, and is paid nothing; left alone until the end it is
    paid one. */
module LedgerRounding {
  import opened Ledger
  import opened LedgerRewards

  const ED: EditionId := (1, 1)
  const ANNA: BalanceKey := (ED, "anna")
  const BERT: BalanceKey := (ED, "bert")
  const WALLETS: map<Address, nat> := map["funder" := 2]

  const CREATE := CreateEdition(ED, 0, "maker", 0)
  const MINT := MintUnits(ED, "maker", [Entry("anna", 1, true, true), Entry("bert", 1, true, true)], 0, 0)
  const FUND := FundEdition(ED, "funder", 1)
  const CLAIM := ClaimRewards(ED, "anna", "anna")

  const HALF: nat := 500_000_000_000_000_000

  function Both(a: Balance): map<BalanceKey, Balance> { map[ANNA := a, BERT := Balance(1, 0, 0, 0, 0)] }

  /** Two units out, at a reward rate, with Anna's record `a`. */
  function At(rate: nat, a: Balance, c: Coins): State {
    State(map[ED := Edition(2, 0, 0, 2, 0, rate)], Both(a), {("anna", ED), ("bert", ED)}, map[], 0, map[], 0, c)
  }

  const UNIT := Balance(1, 0, 0, 0, 0)

  lemma Created()
    ensures Deliver(Genesis(WALLETS), CREATE) == Genesis(WALLETS).(editions := map[ED := Edition(0, 0, 0, 0, 0, 0)])
  {
  }

  lemma Minted()
    ensures Deliver(Deliver(Genesis(WALLETS), CREATE), MINT) == At(0, UNIT, Genesis(WALLETS).coins)
  {
    Created();
    var s := Genesis(WALLETS).(editions := map[ED := Edition(0, 0, 0, 0, 0, 0)]);
    var entries := MINT.entries;
    assert entries[1..] == [entries[1]] && entries[1..][1..] == [];
    assert BatchTotal(entries[1..][1..], 2) == Ok(2);
    assert BatchTotal(entries[1..], 1) == Ok(2);
    assert BatchTotal(entries, 0) == Ok(2);
    BothMinted(s);
  }

  lemma BothMinted(s: State)
    requires s.balances == map[] && s.byOwner == {}
    ensures MintEach(s, Edition(0, 0, 0, 0, 0, 0), ED, "maker", MINT.entries, 0, 0)
            == Ok((s.(balances := Both(UNIT), byOwner := {("anna", ED), ("bert", ED)}), Edition(2, 0, 0, 2, 0, 0)))
  {
    var one := s.(balances := map[ANNA := UNIT], byOwner := {("anna", ED)});
    var t := s.(balances := Both(UNIT), byOwner := {("anna", ED), ("bert", ED)});
    OneMinted(s, Edition(0, 0, 0, 0, 0, 0), "anna");
    OneMinted(one, Edition(1, 0, 0, 1, 0, 0), "bert");
    hide MintUnitsTo, MintEach;
    SameOwners(s.byOwner);
    assert map[ANNA := UNIT][BERT := UNIT] == Both(UNIT);
    var x, y := MINT.entries[0], MINT.entries[1];
    MintNext(s, Edition(0, 0, 0, 0, 0, 0), x, [y], one, Edition(1, 0, 0, 1, 0, 0));
    MintNext(one, Edition(1, 0, 0, 1, 0, 0), y, [], t, Edition(2, 0, 0, 2, 0, 0));
    assert MINT.entries == [x] + [y] && [y] + [] == [y];
    MintNone(t, Edition(2, 0, 0, 2, 0, 0));
  }

  lemma SameOwners(owners: set<(Address, EditionId)>)
    requires owners == {}
    ensures owners + {("anna", ED)} == {("anna", ED)} && {("anna", ED)} + {("bert", ED)} == {("anna", ED), ("bert", ED)}
  {
  }

  lemma MintNone(s: State, e: Edition)
    ensures MintEach(s, e, ED, "maker", [], 0, 0) == Ok((s, e))
  {
  }

  lemma MintNext(s: State, e: Edition, x: Entry, rest: seq<Entry>, t: State, e1: Edition)
    requires MintUnitsTo(s, e, ED, "maker", x.recipient, x.amount, x.direct, Terms(0, 0, x.slotFree)) == Ok((t, e1))
    ensures MintEach(s, e, ED, "maker", [x] + rest, 0, 0) == MintEach(t, e1, ED, "maker", rest, 0, 0)
  {
    hide MintUnitsTo;
    assert ([x] + rest)[0] == x && ([x] + rest)[1..] == rest;
  }

  lemma OneMinted(s: State, e: Edition, to: Address)
    requires (ED, to) !in s.balances && e.reserved == 0 && e.supply == e.holders && e.supply <= 1 && e.rewardPerUnit == 0
    ensures MintUnitsTo(s, e, ED, "maker", to, 1, true, Terms(0, 0, true))
            == Ok((s.(balances := s.balances[(ED, to) := UNIT], byOwner := s.byOwner + {(to, ED)}),
                   e.(supply := e.supply + 1, holders := e.holders + 1)))
  {
  }

  lemma Funded(rate: nat, a: Balance, c: Coins)
    requires Wallet(c, "funder") >= 1
    ensures var t := Deliver(At(rate, a, c), FUND);
            t == At(rate + HALF, a, t.coins) && t.coins.rewarded == c.rewarded && t.coins.pot == c.pot + 1
            && Wallet(t.coins, "funder") == Wallet(c, "funder") - 1
  {
  }

  lemma Claimed(rate: nat, a: Balance, c: Coins)
    requires a.amount == 1 && a.locked == 0 && a.unclaimed == 0 && a.deposit == 0 && a.rewardDebt <= rate
    requires (rate - a.rewardDebt) / 1_000_000_000_000_000_000 <= c.pot
    ensures var t, n := Deliver(At(rate, a, c), CLAIM), (rate - a.rewardDebt) / 1_000_000_000_000_000_000;
            t == At(rate, a.(rewardDebt := rate), t.coins) && t.coins.pot == c.pot - n
            && (n == 0 ==> t.coins.wallets == c.wallets)
            && Rewarded(t.coins, ANNA) == Rewarded(c, ANNA) + n
  {
    assert Accrued(a, rate) == (rate - a.rewardDebt) / 1_000_000_000_000_000_000;
  }

  /** Settled in between, Anna is paid nothing over the run; left alone, one coin. */
  lemma SettlingLosesACoinInARun()
    ensures Rewarded(Run(Genesis(WALLETS), [CREATE, MINT, FUND, CLAIM, FUND, CLAIM]).coins, ANNA) == 0
    ensures Rewarded(Run(Genesis(WALLETS), [CREATE, MINT, FUND, FUND, CLAIM]).coins, ANNA) == 1
  {
    hide Deliver;
    Minted();
    var s := At(0, UNIT, Genesis(WALLETS).coins);
    RunSix(Genesis(WALLETS), CREATE, MINT, FUND, CLAIM, FUND, CLAIM);
    RunFive(Genesis(WALLETS), CREATE, MINT, FUND, FUND, CLAIM);
    Funded(0, UNIT, s.coins);
    var s1 := Deliver(s, FUND);
    Claimed(HALF, UNIT, s1.coins);
    var s2 := Deliver(s1, CLAIM);
    Funded(HALF, UNIT.(rewardDebt := HALF), s2.coins);
    var s3 := Deliver(s2, FUND);
    Claimed(2 * HALF, UNIT.(rewardDebt := HALF), s3.coins);
    Funded(HALF, UNIT, s1.coins);
    var t2 := Deliver(s1, FUND);
    Claimed(2 * HALF, UNIT, t2.coins);
  }

  lemma RunFive(s: State, a: Op, b: Op, c: Op, d: Op, e: Op)
    ensures Run(s, [a, b, c, d, e]) == Deliver(Deliver(Deliver(Deliver(Deliver(s, a), b), c), d), e)
  {
    hide Deliver;
    assert [a, b, c, d, e][..4] == [a, b, c, d] && [a, b, c, d][..3] == [a, b, c];
    assert [a, b, c][..2] == [a, b] && [a, b][..1] == [a] && [a][..0] == [];
    assert Run(s, [a]) == Deliver(s, a);
    assert Run(s, [a, b]) == Deliver(Deliver(s, a), b);
    assert Run(s, [a, b, c]) == Deliver(Run(s, [a, b]), c);
    assert Run(s, [a, b, c, d]) == Deliver(Run(s, [a, b, c]), d);
  }

  lemma RunSix(s: State, a: Op, b: Op, c: Op, d: Op, e: Op, f: Op)
    ensures Run(s, [a, b, c, d, e, f]) == Deliver(Deliver(Deliver(Deliver(Deliver(Deliver(s, a), b), c), d), e), f)
  {
    hide Deliver;
    assert [a, b, c, d, e, f][..5] == [a, b, c, d, e];
    RunFive(s, a, b, c, d, e);
    assert Run(s, [a, b, c, d, e, f]) == Deliver(Run(s, [a, b, c, d, e]), f);
  }
}
