# Spark Dream: verified models

Dafny models of seven stateful parts of the Spark Dream chain and its tools,
with proofs of what each is there to keep. `dafny verify dfyconfig.toml` checks
everything.

| part | files |
|---|---|
| Edition unit ledger and the Harberger tax pass (`x/artifact`) | `MapSums`, `Ledger`, `LedgerInvariant`, `LedgerSteps`, `LedgerMessages`, `LedgerRewards`, `LedgerRounding`, `LedgerHoldings`, `LedgerInbox`, `LedgerAdmission`, `Keeper`, `Harberger` |
| Trust tree, sparse prover, shield circuit (`tools/crypto`, `tools/zk`) | `Field`, `Merkle`, `MerkleTree`, `Shield`, `Statement` |
| Verdict feed and the combination rule (`tools/contentscan`) | `Attestation`, `StringOrder`, `FeedTree`, `Feed`, `FeedWriter`, `Combine`, `CombineOrder` |
| Exec-fragment codec and the generated marshalling (`tools/tle/fragment.go`, `x/shield/types/tx.pb.go`) | `Fragment`, `Marshal` |
| Bridge discovery and retry (`cmd/sdapbridge`) | `StatusId`, `Discovery`, `Fates`, `Bridge` |
| Archive replay (`cmd/sparkdreamd/cmd/replay_archive.go`) | `Replay`, `ReplayOutcome` |
| Relay refund and sign-in code flow (`app/relayrefund`, `cmd/sdaplogin/oidc.go`) | `RelayRefund`, `CodeFlow`, `CodeOrigin`, `Oidc` |

`Wrappers`, `Sets` and `Decimal` hold what several of them share.

## How to read it

**The ledger.** `Ledger` gives the keeper's primitives and the messages as
functions from one set of stores to the next; `Keeper.UnitKeeper` updates the
stores in place and is held to those functions. `LedgerInvariant.Inv` says what
holds between messages: for every edition, supply is the sum of the holders'
free plus locked units, reserved is the sum of the pending mints, `holders`
counts the records, and supply + burned + reserved fits the hard maximum and the
edition's own cap (so no 64-bit counter wraps); every record's locked units are
its open listings plus its outgoing transfers; the by-owner index is the
transposed key set; no record is empty; and the module account is exactly the
record deposits plus the escrows plus the reward pools. Its working form `Near`
lets four of those books be off by a known amount in the middle of a message.

The invariant says that the books agree, not who gets what. Three tables beside the
messages' own code say that, and the messages are proved to follow them:
`LedgerHoldings` what each gives every holder and does to every counter,
`LedgerInbox` what it parks, lists and caps, and for whom, `LedgerAdmission` when it
is accepted and what it pays, charges and burns.

**Answers over runs.** `Fates`, `ReplayOutcome`, `CodeOrigin` and `Statement` say in
the terms of events and inputs what the step functions of `Discovery`, `Replay`,
`CodeFlow` and `Shield` come to: which attempt settled a post, where a replay stops,
which query and verifier stand behind a token, what a proof's public inputs pin.

**Caches that roll back.** In `Harberger` a cached context is an object of its
own that is copied back or dropped; each store or keeper call can succeed, fail
or panic, and a failed claim may leave the cache in any state.

**Oracles.** MiMC, SHA-256, canonical JSON, PKCE's S256 and signature checks are
unknown functions. None is taken to be injective, which no hash into a finite
set is: a binding result ends in the thing bound or in a named clash, two
different inputs that the two parties of the comparison hash to one digest at one
place.

**Values and classes.** `Discovery` and `CodeFlow` give what one event makes of the
bridge's books and of the sign-in server's maps, as `Ledger` does for the unit
ledger; the classes in `Bridge`, `Oidc` and `Keeper` do the work in place and are
held to them. The theorems over runs are about the values: `Discovery.Run` takes
polls and retry passes in any order, `CodeFlow.RunOf` the critical sections of any
handlers in any order.

## What was found

- Settling a record is visible. The reward formula floors, so each settling at a
  new rate can lose a fraction of a coin: `SettlingVisible` says exactly when one
  settling changes a claim, `RewardsExact` gives the exact shortfall of any run
  (less than one coin per funding of the edition, always in the module's favour),
  and `SettlingLosesACoinInARun` a run in which a coin is lost. Locking and
  unlocking never change a claim.
- The node hash drops a block that is not a canonical field element, because
  MiMC's `Write` rejects it and the error is ignored. So an index of the trust
  tree is bound exactly when its leaf and its sibling leaf are canonical
  (`BoundIffCanonical`), and a member beside a leaf that is not canonical cannot
  be proven in the circuit without a clash (`MemberProves`).
- The prover's check before proving takes any nonzero path bit for a right turn,
  while the circuit wants bits of 0 and 1 (`CheckTakesAnyTurn`,
  `NonBinaryBitUnprovable`; exactly when the circuit is satisfied:
  `AssignmentMeans`).
- The order of status ids, numeric when both parse and by length and bytes
  otherwise, runs in a circle exactly when an id that is no number lies between two
  numbers the wrong way round (`CircleIff`), which takes leading zeros; without
  them it is a strict total order.
- The bridge's cursor can pass a post that was handed in on one page, held or
  behind the one that held the cursor, and that a later page no longer carries
  (`CrowdedOut`). `MissedExactly` says which those are; some are boosts or handled
  all the same. A run loses none exactly when each poll leaves accounted for what
  its page left out and it passed (`NoneLostIff`); it is enough that each page
  carries every post handed in and not yet passed (`NoneMissed`).
- When a worker's latest counted issue time is tied, the order of attestations
  decides which counts, and only then (`OrderMattersIffTied`). It can change the
  combined result (`TieChangesResult`), but not for every tie: `ResultFixedIff` is
  the exact condition.
- An archive file whose name has its range backwards is refused by the preflight
  check although the replay loop would have met no gap (`BackwardsNameRefused`);
  `BackwardsExact` says exactly when.
- One login page can mint more than one code (`TwoCodesOnePage`): exactly while
  another verify of it is past the gate (`SecondCodeIff`), and never more than its
  five tries (`CodesPerPage`).
- A token read that fails inside the tax pass counts as a stale entry, so its due
  entry is dropped (`FailedReadDrops`); `Harberger.Drops` is the exact condition
  for a due token to lose its entry.

## Model

| member | source | states |
|---|---|---|
| LedgerMessages.RunKeeps | x/artifact/keeper/editions.go:106-471 | After any sequence of messages from genesis the invariant holds: supply, reserved, holders, locks, index, caps, no empty record, and the module account equal to deposits plus escrows plus reward pools |
| LedgerMessages.ApplyKeeps | x/artifact/keeper/invariants_wave34.go:19-109 | Any single message, whether it succeeds or errs, keeps that invariant |
| LedgerMessages.NothingStuck | x/artifact/keeper/editions.go:378-471 | In every reachable state every pending unit item resolves with each of the four outcomes, and every unit listing can be removed |
| LedgerMessages.ResolveSucceeds | x/artifact/keeper/editions.go:381-435 | Accepting, rejecting, cancelling or expiring any item never fails on a debit, an unlock, a checked addition or a refund, and keeps the invariant |
| LedgerMessages.RemoveListingSucceeds | x/artifact/keeper/editions.go:443-471 | Taking a listing down never fails in any state of the invariant, and keeps it |
| LedgerMessages.MintKeeps | x/artifact/keeper/msg_server_mint_units.go:15-71 | A mint batch whose total fits the cap leaves every counter within it, whatever mix of direct and parked entries it has |
| LedgerMessages.MintToKeeps | x/artifact/keeper/editions.go:290-325 | One entry of a batch, direct or parked, keeps every book level and leaves room under the caps for the rest of the batch |
| LedgerMessages.BatchTotalExact | x/artifact/keeper/msg_server_mint_units.go:40-55 | A batch total that passes the wrap check is the true sum of the entries |
| LedgerMessages.TransferKeeps | x/artifact/keeper/msg_server_transfer_units.go:17-79 | A direct or parked transfer keeps the invariant, sender and recipient the same address included |
| LedgerMessages.ParkKeeps | x/artifact/keeper/editions.go:329-368 | Parking a transfer moves the units to locked and its deposit into escrow; the inbox fee is burned and stays out of the pot |
| LedgerMessages.ListKeeps | x/artifact/keeper/msg_server_list_units.go:16-87 | Opening a listing keeps the invariant, so locked units stay those listed or on their way out |
| LedgerMessages.UpdateListingKeeps | x/artifact/keeper/msg_server_update_unit_listing.go:16-78 | Changing a listing's quantity keeps the invariant |
| LedgerMessages.BuyKeeps | x/artifact/keeper/msg_server_buy_units.go:18-90 | A purchase, with the removal of a sold-out listing, keeps the invariant |
| LedgerMessages.BurnKeeps | x/artifact/keeper/msg_server_burn_units.go:14-46 | A burn keeps the invariant, so supply + burned + reserved stays under the caps |
| LedgerMessages.FundKeeps | x/artifact/keeper/msg_server_fund_edition.go:17-55 | A funding payment covers what the rate increase makes the records owed |
| LedgerMessages.ClaimKeeps | x/artifact/keeper/msg_server_claim_edition_rewards.go:15-55 | Claiming pays from the edition's pool and never overdraws it |
| LedgerMessages.SetMaxSupplyKeeps | x/artifact/keeper/msg_server_set_max_supply.go:47-77 | Lowering the cap is refused below what is issued, so the cap still holds |
| LedgerMessages.CreateKeeps | x/artifact/keeper/msg_server_create_edition.go:20-79 | A new edition starts level with nothing left over from before |
| LedgerInvariant.WriteKeeps | x/artifact/keeper/editions.go:116-145 | Writing a record, or removing an empty one with its deposit and rewards refunded, shifts the books by exactly the change in units and locked units |
| LedgerSteps.DebitKeeps | x/artifact/keeper/editions.go:185-204 | A debit takes exactly its amount out of the units (and the locked units), and succeeds whenever the record holds enough |
| LedgerSteps.LockKeeps | x/artifact/keeper/editions.go:208-232 | Locking or unlocking changes only the locked units, and succeeds whenever the record holds enough |
| LedgerSteps.CreditKeeps | x/artifact/keeper/editions.go:151-181 | A credit adds exactly its amount, with the deposit escrowed, collected or given back as the record is new or not |
| LedgerSteps.SettleRounds | x/artifact/keeper/editions.go:106-111 | Settling keeps what a record is owed, less a remainder below one coin |
| LedgerRewards.RewardsFollowUnits | x/artifact/keeper/editions.go:106-232 | Over any run, what a holder was paid plus what it is owed is at most the sum over rate increments of the units it held then, and short of it by less than one coin for each funding of that edition |
| LedgerRewards.RewardsExact | x/artifact/keeper/editions.go:106-232 | Over any run the shortfall is exactly the sum of the remainders rounded off where a message left the record settled; one funding less counts towards its bound while the record is not settled |
| LedgerRewards.StepExact | x/artifact/keeper/editions.go:106-232 | One message adds to a holder's entitlement what its units earn by it, less the remainder rounded off if it leaves the record settled |
| LedgerRewards.NeverOverpaid | x/artifact/types/wave34.go:195-214 | In whole coins, payouts plus the current claim never exceed what the units earned |
| LedgerRewards.SettlingVisible | x/artifact/keeper/editions.go:106-111 | Settling between two increments leaves the final claim alone if and only if the two rounded remainders sum to less than a coin |
| LedgerRewards.SettlingLosesACoin | x/artifact/types/wave34.go:195-214 | For one unit and two increments of half a coin or more (below one), settling in between loses the coin |
| LedgerRounding.SettlingLosesACoinInARun | x/artifact/keeper/editions.go:106-111 | From genesis, with two units out and two fundings of one coin, a holder that claims after each is paid nothing and one that claims once at the end is paid a coin |
| LedgerRewards.LockingInvisible | x/artifact/keeper/editions.go:206-232 | A lock or unlock of any record leaves the claim of every record at every rate as it was |
| LedgerRewards.MoneyConserved | x/artifact/keeper/helpers.go:108-142 | Over any run wallets, module account and burned coins add up to the starting wallets |
| LedgerRewards.AccountCoversAll | x/artifact/keeper/invariants_wave34.go:246-337 | In every reachable state the module account covers all deposits, all escrows and everything all holders can claim |
| LedgerRewards.DeliverMoves | x/artifact/keeper/editions.go:106-471 | Apart from funding, no message raises any holder's entitlement or creates a coin, and a settled record loses nothing |
| LedgerHoldings.UnitsMove | x/artifact/keeper/editions.go:151-471 | Every message that succeeds moves every holder's free and locked units exactly as a table of parties and amounts says, and nobody else's |
| LedgerHoldings.CountersMove | x/artifact/keeper/msg_server_burn_units.go:27-42 | Every message that succeeds moves supply, burned and reserved of every edition exactly as the table says, without wrap-around; only a burn adds to burned |
| LedgerHoldings.HandOver | x/artifact/keeper/editions.go:151-204 | A debit and a credit together move units from one holder to another, the two being the same holder included |
| LedgerHoldings.MintEachGains | x/artifact/keeper/msg_server_mint_units.go:59-68 | A batch gives each recipient exactly its direct entries |
| LedgerHoldings.DebitPays | x/artifact/keeper/editions.go:116-145 | Taking the last unit of a record pays its owner the deposit and all it could claim; any other debit pays nobody |
| LedgerHoldings.ClaimPays | x/artifact/keeper/msg_server_claim_edition_rewards.go:15-55 | A claim pays its payee exactly what the record could claim and leaves nothing to claim |
| LedgerHoldings.ReturnPays | x/artifact/keeper/editions.go:411-424 | An item rejected, cancelled or expired pays its deposit back to its sender and nothing else |
| LedgerInbox.ItemsFollow | x/artifact/keeper/editions.go:290-471 | Every message that succeeds adds to the inbox exactly the items it parks, each under the next id with the message's own sender, recipient, amount and deposit; changes the market exactly as a table says; and moves only the cap or rate it is about: a new edition's and a lowered cap are those asked for, a funding raises the rate by each unit's scaled share |
| LedgerInbox.MintEachGrows | x/artifact/keeper/msg_server_mint_units.go:59-68 | A batch parks one item for each parked entry, in order, from the minter to that entry's recipient |
| LedgerInbox.ItemWaits | x/artifact/keeper/editions.go:329-435 | Over any run an item waits unchanged until a message resolves it |
| LedgerInbox.ParkedWaits | x/artifact/keeper/editions.go:329-435 | Any item a message parks waits with the message's terms however many messages follow, and then resolves with any outcome, moving units as those terms say |
| LedgerInbox.ParkedTransferAccepted | x/artifact/keeper/msg_server_transfer_units.go:17-79 | A parked transfer, accepted after any other messages, hands the locked units of the holder to the recipient the message named |
| LedgerInbox.ParkedIsDirect | x/artifact/keeper/editions.go:345-410 | Parked and then accepted at once, a transfer moves units exactly as a direct one does |
| LedgerInbox.ParkedTransferReturned | x/artifact/keeper/editions.go:411-424 | Rejected, cancelled or expired instead, the units are free for the holder again and nobody else gains |
| LedgerInbox.ParkedMintAccepted | x/artifact/keeper/editions.go:290-325 | A parked entry of a batch, accepted after any other messages, gives its own recipient its own amount, and nobody else anything |
| LedgerAdmission.AcceptedIff | x/artifact/keeper/editions.go:106-471 | In every state of the invariant each of the twelve messages is accepted if and only if an explicit condition on the state and the message holds; what it then pays each address, takes from it and burns is exactly what a table says |
| LedgerAdmission.MintEachCosts | x/artifact/keeper/msg_server_mint_units.go:59-68 | A batch goes through exactly when each parked entry has a slot and the minter can pay one deposit for each new recipient, once, and fee and deposit for each parked entry; it pays exactly that, and the fees are burned |
| LedgerAdmission.TradeCosts | x/artifact/keeper/editions.go:151-204 | A debit and a credit go through exactly when the units are there and the payer, perhaps just paid out, can put down the deposit of a new record; an emptied record pays its owner, and no one else is touched |
| LedgerAdmission.CreditCosts | x/artifact/keeper/editions.go:151-181 | A credit charges its payer for a new record and nobody for an old one; an escrow funds the new record or goes back to its sender |
| LedgerAdmission.ParkCosts | x/artifact/keeper/editions.go:329-368 | Parking succeeds exactly with a free slot and fee plus deposit in the payer's wallet; the fee is burned and the deposit escrowed |
| LedgerAdmission.ClaimCovered | x/artifact/keeper/msg_server_claim_edition_rewards.go:15-55 | The module account covers any record's claim, so a holder's claim never fails |
| Keeper.UnitKeeper.constructor | x/artifact/keeper/invariants_wave34.go:19-109 | The empty stores satisfy the invariant |
| Keeper.UnitKeeper.WriteBalance | x/artifact/keeper/editions.go:116-145 | The stores and the edition copy end as the ledger function says, record, index, holder count and refunds included |
| Keeper.UnitKeeper.Credit | x/artifact/keeper/editions.go:151-181 | Store for store the ledger's credit |
| Keeper.UnitKeeper.Debit | x/artifact/keeper/editions.go:185-204 | Store for store the ledger's debit, failing exactly when it does |
| Keeper.UnitKeeper.LockUnits | x/artifact/keeper/editions.go:208-232 | Store for store the ledger's lock and unlock |
| Keeper.UnitKeeper.ParkUnits | x/artifact/keeper/editions.go:329-368 | Store for store the ledger's parking, with the id it hands out; for whom, and what follows: `LedgerInbox.ItemsFollow`, `LedgerInbox.ParkedIsDirect` |
| Keeper.UnitKeeper.MintUnitsTo | x/artifact/keeper/editions.go:290-325 | Store for store the ledger's mint of one entry |
| Keeper.UnitKeeper.ResolvePendingUnits | x/artifact/keeper/editions.go:381-435 | Store for store the ledger's resolution, for each outcome |
| Keeper.UnitKeeper.RemoveUnitListing | x/artifact/keeper/editions.go:443-471 | Store for store the ledger's removal of a listing |
| Keeper.UnitKeeper.BurnUnits | x/artifact/keeper/msg_server_burn_units.go:14-46 | Store for store the ledger's burn |
| Keeper.UnitKeeper.MintUnits | x/artifact/keeper/msg_server_mint_units.go:15-71 | Store for store the ledger's batch mint |
| Keeper.UnitKeeper.CreateEdition | x/artifact/keeper/msg_server_create_edition.go:20-79 | Store for store the ledger's new edition |
| Keeper.UnitKeeper.TransferUnits | x/artifact/keeper/msg_server_transfer_units.go:17-79 | Store for store the ledger's transfer, direct or parked |
| Keeper.UnitKeeper.ListUnits | x/artifact/keeper/msg_server_list_units.go:16-87 | Store for store the ledger's new listing |
| Keeper.UnitKeeper.UpdateUnitListing | x/artifact/keeper/msg_server_update_unit_listing.go:16-78 | Store for store the ledger's changed listing |
| Keeper.UnitKeeper.BuyUnits | x/artifact/keeper/msg_server_buy_units.go:18-90 | Store for store the ledger's purchase of units |
| Keeper.UnitKeeper.FundEdition | x/artifact/keeper/msg_server_fund_edition.go:17-55 | Store for store the ledger's funding |
| Keeper.UnitKeeper.ClaimEditionRewards | x/artifact/keeper/msg_server_claim_edition_rewards.go:15-55 | Store for store the ledger's claim |
| Keeper.UnitKeeper.SetMaxSupply | x/artifact/keeper/msg_server_set_max_supply.go:47-77 | Store for store the ledger's lowered cap |
| Keeper.UnitKeeper.Deliver | x/artifact/keeper/invariants_wave34.go:19-109 | Each of the twelve messages takes full effect or none and keeps the invariant, and resolving an item or delisting always succeeds |
| Harberger.Context.CollectHarbergerTax | x/artifact/keeper/harberger.go:120-183 | Over the whole pass, whatever fails or panics: the pool grows by the sum of the payments, each token's tax paid by exactly its own, the module account not at all; and a token that was queued ends queued under its own due time, or with none, if and only if the last turn it was due in did not drop its entry |
| Harberger.Context.Safely | x/artifact/keeper/endblock.go:272-295 | One due entry with its rollbacks changes only its own token and entries, pays in full or not at all, does what the turn says unless rolled back, then what re-queuing says, and leaves a due token queued if and only if the exact condition for dropping it fails |
| Harberger.PassPays | x/artifact/keeper/harberger.go:120-157 | Along any sequence of such turns the pool gains what they paid, each token's tax paid its own payments, the module account nothing |
| Harberger.PassQueues | x/artifact/keeper/harberger.go:123-182 | Along any such sequence a queued token stays queued if and only if the last turn it was due in did not drop its entry |
| Harberger.TurnTells | x/artifact/keeper/harberger.go:123-157 | In the terms of the calls alone: a due token is foreclosed at its due time when nothing reached the pool, due again when its grant has a further claim before it expires, and else in grace for one period from its due time without a grant; in the last two its tax paid grows by the pull |
| Harberger.OutForGood | x/artifact/keeper/harberger.go:120-157 | Along any sequence of turns a token in grace or foreclosed pays no more and its record stays as it is |
| Harberger.FailedReadDrops | x/artifact/keeper/harberger.go:127-130 | One failed read leaves a taxed token with a due time and no entry in the index |
| Harberger.Context.Turn | x/artifact/keeper/harberger.go:123-157 | A turn commits exactly unless a call it needs fails; then it taxes the token until its next pull, or for the last time with grace, or forecloses it from its due time; a stale entry changes no token |
| Harberger.Context.CollectTax | x/artifact/keeper/harberger.go:88-115 | A pull reaches the pool in full or leaves the money as it was; a failed pull keeps the session's transition, any other failure keeps nothing |
| Harberger.Context.Record | x/artifact/keeper/harberger.go:132-156 | What is written for each way a pull can end, and the due entry that goes with it |
| Harberger.Context.Requeue | x/artifact/keeper/harberger.go:158-176 | The fallback puts a due token one period later, exactly unless a call it needs fails or the class has no period |
| Harberger.Context.IndexDue | x/artifact/keeper/harberger.go:24-29 | A token is indexed under its due time, and one without a due time not at all |
| Field.PadTo32 | tools/crypto/crypto.go:96-105 | 32 bytes in all: zeros on the left of shorter data, the first 32 bytes of longer |
| Field.PadKeepsValue | tools/crypto/crypto.go:96-105 | Zeros on the left leave the number the bytes spell unchanged |
| Merkle.GeneratedProofVerifies | tools/crypto/crypto.go:289-364 | For every row of leaves, depth and index, the generated proof verifies |
| Merkle.Verify | tools/crypto/crypto.go:333-364 | The loop accepts exactly the proofs whose fold of path and bits gives the root |
| Merkle.VerifyBinds | tools/crypto/crypto.go:289-364 | Where both leaves of the pair are canonical, a full-depth proof that verifies against the tree's root opens the leaf at the index its bits spell, or at some level the proof and the tree hash two different inputs, at one node, to one element |
| Merkle.BoundIffCanonical | tools/crypto/crypto.go:81-86 | Every proof of another leaf at an index exhibits such a clash if and only if the leaf and its sibling are canonical field elements |
| Merkle.ForgeryVerifies | tools/crypto/crypto.go:81-93 | Where one of the pair is not canonical, a proof of a different leaf verifies against the same root without any clash |
| Merkle.CanonicalPairClashes | tools/crypto/crypto.go:81-93 | There a proof with a canonical leaf and sibling verifies only with a clash |
| Merkle.PathNeverClashes | tools/crypto/crypto.go:289-330 | The tree's own proof hashes the tree's own inputs all the way up |
| MerkleTree.ZeroHashes | tools/crypto/crypto.go:193-214 | Entry l is the hash of an empty subtree of height l |
| MerkleTree.Tree.constructor | tools/crypto/crypto.go:193-214 | A new tree is valid, empty and unbuilt |
| MerkleTree.Tree.AddLeaf | tools/crypto/crypto.go:218-225 | Appends the padded leaf, and refuses exactly when the tree is full |
| MerkleTree.Tree.Build | tools/crypto/crypto.go:229-262 | Builds every layer of the reference tree, and refuses exactly an empty tree |
| MerkleTree.Tree.Root | tools/crypto/crypto.go:265-270 | Nothing before a Build, then the top node of the reference tree over the leaves last built from |
| MerkleTree.Tree.GetProof | tools/crypto/crypto.go:289-330 | An error out of range or before any Build; else the leaf with path, bits and root of the reference tree over the leaves last built from, which is the reference proof when none was added since |
| MerkleTree.LateLeafUnproven | tools/crypto/crypto.go:289-330 | The proof returned for a leaf added after the Build verifies only if the leaf is empty or with a clash |
| MerkleTree.SparseMerkleProof | tools/crypto/sparse.go:16-74 | From the leaf map alone, the same proof as the reference tree's, with its error cases |
| MerkleTree.Climb | tools/crypto/sparse.go:41-72 | Level by level the maps give exactly the reference tree's path, bits and root |
| MerkleTree.Parents | tools/crypto/sparse.go:41-64 | Each level map agrees with the dense layer where present and with the zero hash elsewhere |
| MerkleTree.SparseIsDense | tools/crypto/sparse.go:10-74 | For every leaf row that fits the depth and every index, sparse and dense return the same proof, which verifies |
| Shield.Define | tools/zk/circuit/shield_circuit.go:100-187 | The circuit's steps accept exactly the assignments that satisfy its constraints |
| Shield.VerifyMerkleProof | tools/zk/circuit/shield_circuit.go:190-216 | The hash-both-and-select loop computes the circuit's fold |
| Shield.BinaryIff | tools/zk/circuit/shield_circuit.go:219-223 | Over a prime field, v(v-1) is zero if and only if v is 0 or 1 |
| Shield.FoldsAlike | tools/zk/circuit/shield_circuit.go:190-216 | On binary bits the circuit folds elements as the off-chain check folds bytes |
| Shield.KeysAlike | tools/crypto/crypto.go:126-169 | The circuit's leaf and nullifier hashes are those of the crypto package |
| Shield.ConstraintsMean | tools/zk/circuit/shield_circuit.go:100-223 | The constraints hold if and only if the bits are binary, the secret's leaf folds to the root, trust is at least the minimum, and both nullifiers are the computed ones |
| Shield.GenerateProof | tools/zk/prover/prover.go:200-247 | Accepts exactly valid input whose recomputed leaf verifies, and then builds the assignment of that input; what its public inputs pin: `Statement.ProofPinsOutput`, `Statement.ScopesBind` |
| Shield.FillPath | tools/zk/prover/prover.go:238-247 | The path arrays hold the path's elements and bits in order |
| Shield.AssignmentSatisfies | tools/zk/prover/prover.go:200-247 | On a canonical path the assignment satisfies the circuit if and only if the bits are binary and trust suffices |
| Shield.AssignmentMeans | tools/zk/prover/prover.go:200-247 | On any path the assignment satisfies the circuit if and only if the bits are binary, trust suffices, and the proof verifies with its path reduced into the field |
| Shield.MemberProves | tools/zk/prover/prover.go:200-247 | For a member at any index of any tree the prover accepts; next to a canonical leaf the assignment satisfies the circuit if and only if trust suffices, next to any other only with a clash of MiMC with the tree |
| Shield.CheckTakesAnyTurn | tools/crypto/crypto.go:338-352 | Replacing a nonzero path bit by 2 changes nothing in the off-chain fold |
| Shield.NonBinaryBitUnprovable | tools/zk/circuit/shield_circuit.go:219-223 | So input with such a bit passes the prover's check and its assignment satisfies no circuit |
| Statement.ScopesBind | tools/crypto/crypto.go:121-128 | Scope elements of 64-bit domains and scopes are equal if and only if domain and scope are, or the hash clashes on the two pairs |
| Statement.NullifiersBind | tools/crypto/crypto.go:130-134 | Equal action nullifiers mean one key, one domain and one scope, or a named clash |
| Statement.RateLimitsBind | tools/crypto/crypto.go:155-169 | Rate-limit nullifiers are equal if and only if key and epoch are, or the hash clashes |
| Statement.KindsApart | tools/zk/circuit/shield_circuit.go:25-34 | An action nullifier equals a rate-limit one only by a clash |
| Statement.LeavesBind | tools/crypto/crypto.go:147-154 | Equal leaves mean one key and one trust level, or a named clash |
| Statement.ProofPinsOutput | tools/zk/prover/prover.go:225-410 | The public inputs a verifier rebuilds from an output in canonical form are those of the prover's assignment if and only if it is the prover's own output, message hash included, but for a domain and scope whose scope elements clash |
| Statement.InputsBind | tools/zk/prover/prover.go:225-236 | Two proofs with the same public inputs agree in root, threshold, epoch and message hash, and in domain, scope and key or show a clash |
| Statement.MessageBinds | tools/crypto/sparse.go:108-119 | Two messages have one hash if and only if type URL and value are the same, or masked SHA-256 clashes on the two |
| Statement.OwnedMessageBinds | tools/crypto/sparse.go:121-135 | The same for owned messages with their sequence |
| Statement.ModesApart | tools/crypto/sparse.go:101-106 | A plain and an owned message share a hash only by such a clash |
| Statement.MessageHashCanonical | tools/crypto/sparse.go:108-119 | Clearing the top three bits leaves the digest modulo 2^253, always below the scalar modulus |
| FeedTree.MerkleRoot | tools/contentscan/feed.go:69-82 | The recursion with its splitting loop computes the RFC 6962 tree hash |
| FeedTree.SplitIsLargest | tools/contentscan/feed.go:76-80 | The split is the largest power of two below the length (section 2.1 of RFC 6962) |
| FeedTree.SmallTrees | tools/contentscan/feed.go:54-82 | The trees of none, one, two and three attestations written out, with the leaf and node prefixes |
| FeedTree.RootCommits | tools/contentscan/feed.go:54-82 | Equal roots mean the same attestations in the same order and number, or two different byte strings hashed for the two feeds share a digest, or two different attestations of them an encoding |
| FeedTree.CheckpointPins | tools/contentscan/feed.go:130-176 | A later feed reproduces an earlier root at the earlier count if it extends the earlier feed, and only then unless the two exhibit such a clash |
| Feed.NamesSort | tools/contentscan/feed.go:193-195 | Below a million segments, file names sort as their numbers |
| Feed.SixDigits | tools/contentscan/feed.go:193-195 | Below a million a segment's name is its six decimal digits and the extension the reader globs for |
| Feed.SegmentHolds | tools/contentscan/feed.go:144-176 | Segment i holds exactly entries 1000(i-1) to 1000i, in order |
| Feed.ReadBackHistory | tools/contentscan/feed.go:222-241 | Reading the segments in name order gives back the history |
| Feed.ReadSegments | tools/contentscan/feed.go:222-241 | The loop over sorted names reads all files, smallest name first |
| FeedWriter.TakedownsMean | tools/contentscan/feed.go:130-140 | A subject is on the takedown map if and only if some removal names it, with the entry of the last one |
| FeedWriter.TakedownsTell | tools/contentscan/feed.go:130-140 | In an attestation's own fields: listed are exactly the subjects of removals outside the test category, with the perceptual hash and category of the last |
| FeedWriter.Writer.Append | tools/contentscan/feed.go:144-176 | Appends all entries to memory and disk in step, in their segments, and fails exactly when one is unsigned |
| FeedWriter.Writer.Index | tools/contentscan/feed.go:130-140 | One entry enters leaves and takedown map as the history says |
| FeedWriter.Writer.SetScannedHeight | tools/contentscan/feed.go:180-185 | The scanned height never goes down, and nothing else changes |
| FeedWriter.OpenFeed | tools/contentscan/feed.go:95-128 | Opens exactly the feeds of this worker, with the index of what was written |
| FeedWriter.Reopen | tools/contentscan/feed.go:95-128 | A reopened writer has the same leaves, count, root, height and takedowns as the one that closed |
| FeedWriter.Session | tools/contentscan/feed.go:95-241 | After any run of appends, scanned heights and reopenings in any order the disk reads back exactly what was appended, the height is the greatest scanned, and every root reported on the way is that of a prefix of the final feed |
| Combine.Combine | tools/contentscan/combine.go:41-103 | The result is the one the declarative rule gives over each worker's latest counted attestation |
| Combine.Tally | tools/contentscan/combine.go:68-103 | The walk over sorted workers gives the rule's result |
| Combine.RulesDecide | tools/contentscan/combine.go:29-40 | The rule (removed beats held beats a quorum of distinct clean workers, else unchecked) has one answer |
| Combine.LatestMeans | tools/contentscan/combine.go:41-66 | A worker's entry is one of its counted attestations and none of its counted ones is later |
| Combine.VerdictBacked | tools/contentscan/combine.go:29-101 | Every verdict rests on unexpired attestations about this hash, signed under the key last listed for their worker: a removal or hold on one that says so with that category, clean on as many workers as the quorum and at least one |
| Combine.LastWordHeard | tools/contentscan/combine.go:29-101 | A worker's latest such attestation is heard: a removal removes, a hold at least holds, and a clean one beside either is a conflict |
| Combine.OrderIrrelevant | tools/contentscan/combine.go:29-66 | When no worker has two different counted attestations at its latest counted issue time, which attestations count depends only on which counted ones there are, not on their order nor on the uncounted ones |
| Combine.OrderMattersIffTied | tools/contentscan/combine.go:41-66 | For any attestations, every order of them makes the same attestations count if and only if no worker's latest counted issue time is tied |
| CombineOrder.ResultFixedIff | tools/contentscan/combine.go:41-103 | No order of the attestations changes the combined result if and only if tied latest attestations of a worker agree on being clean, and the deciding category is fixed: some worker can only remove and every removal by a worker up to the first such names its category, or none removes and the latest attestations of the first holder name one |
| CombineOrder.OrdersAreChoices | tools/contentscan/combine.go:49-66 | The orders of the attestations make count exactly the choices of one latest counted attestation for each counted worker |
| CombineOrder.AgreedFixes | tools/contentscan/combine.go:68-103 | Under that condition any two such choices give one result |
| CombineOrder.NotAgreedDiffers | tools/contentscan/combine.go:68-103 | Without it there are two choices that give different results |
| CombineOrder.TieChangesResult | tools/contentscan/combine.go:62-65 | A clean verdict and a removal of one worker in one second give clean in one order and removed in the other |
| Combine.FirstTopCounts | tools/contentscan/combine.go:62-65 | Put first, an attestation that no other counted one of its worker is later than is the one that counts |
| Combine.QuorumFloor | tools/contentscan/combine.go:42-44 | A quorum below one is a quorum of one |
| Combine.TieByPosition | tools/contentscan/combine.go:62-65 | A tie is counted by whichever comes first |
| Fragment.VarintRoundTrip | tools/tle/fragment.go:60-66 | Every uint64 reads back with its length, whatever bytes follow |
| Fragment.AppendVarint | tools/tle/fragment.go:60-66 | The loop appends the value's varint to the buffer |
| Fragment.ReadVarint | tools/tle/fragment.go:111-120 | The loop reads the value and its length, or fails at the ten-byte limit or the end of input |
| Fragment.ParseFields | tools/tle/fragment.go:70-109 | The loop parses a message to the map of its length-delimited fields |
| Fragment.ParseConcat | tools/tle/fragment.go:70-109 | Parsing a concatenation is the first map overridden by the second, or the second's failure |
| Fragment.FragmentRoundTrip | tools/tle/fragment.go:19-48 | Decoding inverts encoding for every non-empty type URL and any value, proof and nullifier |
| Fragment.EncodeExecFragment | tools/tle/fragment.go:19-30 | Encodes to bytes that decode to the same fragment, and refuses exactly an empty type URL |
| Fragment.DecodeExecFragment | tools/tle/fragment.go:34-48 | Decodes or fails as the specification of the two nested messages says |
| Fragment.EncodingInjective | tools/tle/fragment.go:19-30 | Different fragments never encode alike |
| Marshal.ByteIdentical | tools/tle/fragment.go:8-30 | The hand-written encoding is byte for byte the generated marshalling of the message with only the inner message, proof and nullifier set |
| Marshal.MarshalToSizedBuffer | x/shield/types/tx.pb.go:999-1075 | Writing all eleven fields back to front in a buffer of the computed size leaves exactly the wire form in field order |
| Marshal.MarshalExec | x/shield/types/tx.pb.go:984-992 | Marshalling allocates the computed size and fills all of it |
| Marshal.EncodeVarint | x/shield/types/tx.pb.go:1307-1317 | Writes the varint that ends at an offset, in front of what follows |
| Marshal.SovIsSize | x/shield/types/tx.pb.go:1485-1487 | The size computed from the bit length is that of the varint, for every number |
| Marshal.SizeIsWire | x/shield/types/tx.pb.go:1342-1392 | The size computed beforehand is that of the wire form, for every message |
| Marshal.ReadsAnyMessage | tools/tle/fragment.go:34-48 | The fragment reader finds type URL, value, proof and nullifier in any marshalled message, whatever else is set, and refuses exactly one without an inner message |
| StatusId.OneOrder | cmd/sdapbridge/state.go:313-323 | Without leading zeros the two comparisons are one order: by length, then as strings |
| StatusId.Chains | cmd/sdapbridge/state.go:313-323 | So it is transitive, asymmetric and total |
| StatusId.LeadingZerosCircle | cmd/sdapbridge/state.go:313-323 | With leading zeros it is not an order: three ids form a circle |
| StatusId.CircleIff | cmd/sdapbridge/state.go:313-323 | Three ids run in a circle if and only if two are numbers, one is not and lies between them by length and bytes, and their values are the other way round |
| StatusId.StraddlingTakesZeros | cmd/sdapbridge/state.go:313-323 | Which takes a number with leading zeros |
| Bridge.Bridge.Run | cmd/sdapbridge/ingest.go:136-218 | Any run of polls and retries leaves a trace of the books in which every step is what its event makes of the books before |
| Discovery.RunKeeps | cmd/sdapbridge/ingest.go:136-218 | Along any such trace: the queue is within its cap, every status the cursor passed is a boost, settled, routed nowhere, given up, queued, or missed; what is accounted for stays so, and the cursor never moves back |
| Discovery.HandedExactly | cmd/sdapbridge/ingest.go:173-184 | The statuses handed in are exactly those of the pages polled |
| Discovery.MissedExactly | cmd/sdapbridge/ingest.go:173-216 | A status is in the missed set, accounted for or not, if and only if some poll passed it whose page left it out though it had been handed in and not passed |
| Discovery.NoneMissed | cmd/sdapbridge/ingest.go:173-216 | If every page carries all statuses handed in and not yet passed, none is missed and every status the cursor passed is accounted for |
| Discovery.NoneLostIff | cmd/sdapbridge/ingest.go:173-216 | At every point of a run from the start every status the cursor has passed is accounted for, if and only if each poll leaves accounted for what its page left out and it passed |
| Discovery.CrowdedOut | cmd/sdapbridge/ingest.go:173-216 | A run of two polls after which a status is passed and neither settled, routed nowhere, given up nor queued |
| Discovery.WalkKeeps | cmd/sdapbridge/ingest.go:182-216 | A walk accounts for everything it passes, leaves the rest unpassed, and stands on the last it finished |
| Discovery.PollKeeps | cmd/sdapbridge/ingest.go:173-218 | One poll keeps the books in order and only moves the cursor forward |
| Discovery.RetryKeeps | cmd/sdapbridge/retry.go:147-174 | One retry pass keeps the books in order and loses no post |
| Discovery.LeavesTheQueue | cmd/sdapbridge/retry.go:78-97 | A post leaves the queue only when a retry settles it or when it has waited a day, and then always |
| Discovery.OneFailurePerPeer | cmd/sdapbridge/retry.go:147-174 | A pass makes at most one failing attempt for each peer, and none for a peer held when it began |
| Discovery.CountedOncePerPeer | cmd/sdapbridge/retry.go:147-174 | Of two due posts of one peer a pass never counts a failed attempt of both |
| Discovery.EachDueStands | cmd/sdapbridge/retry.go:154-172 | After the pass each post that had a turn is settled, waits behind a held peer as it was, or is counted once more with its peer held |
| Fates.WhyThere | cmd/sdapbridge/ingest.go:173-218 | Over any run from the start: a post is settled only by an attempt of some event that came to nil (on a page walked, in an outbox pass, or a turn of a due post whose peer was not held), routed nowhere only by a failed one when no peer owns it, given up only by a retry pass a day after its first failure, and queued only by a failed attempt or a held peer when some peer owns it |
| Fates.PollFares | cmd/sdapbridge/ingest.go:173-218 | A poll stops before the first status that must hold the cursor and at no other; every status after it fares by its own turn: settled, routed nowhere, or queued with its failure counted and its peer held for at least a minute, and stays so to the end of the page |
| Fates.MetMeans | cmd/sdapbridge/ingest.go:184-215 | One status stops the walk exactly when the instance throttles or the queue has no room for it; otherwise its post fares as its peer and its attempt say, and no other post is settled, routed nowhere or queued but by its outbox pass |
| Fates.BackfillFares | cmd/sdapbridge/ingest.go:230-255 | Each post of an outbox pass fares by its own attempt, to the end of the pass |
| Fates.RetryFares | cmd/sdapbridge/retry.go:147-174 | After a retry pass each queued post is given up after a day, untouched before its time, and otherwise as its own turn left it, up to the turn that throttles |
| Fates.EachDueFares | cmd/sdapbridge/retry.go:154-172 | A due post that had a turn is as it was behind a held peer, gone and settled, or counted once more: next try after the backoff, first failure kept, peer held for the backoff |
| Fates.FailingMeans | cmd/sdapbridge/retry.go:103-126 | A failure cannot be booked exactly when the instance throttles or the queue is full; else it is routed nowhere, or queued with its peer held for at least a minute, and nothing else changes |
| Fates.DeferringMeans | cmd/sdapbridge/retry.go:52-69 | One failure counted: attempts one more, the next try that many attempts' delay away, the first failure and peer kept, and no other record changed |
| Fates.DelayDoubles | cmd/sdapbridge/retry.go:42-48 | One minute for the first failure, then double the last delay up to half an hour |
| Fates.ExtendedMeans | cmd/sdapbridge/retry.go:129-136 | A hold becomes the later of the old and the new, and no other hold changes |
| Bridge.Bridge.PollOnce | cmd/sdapbridge/ingest.go:173-218 | One page changes the books exactly as the walk over it says, handed and missed statuses included |
| Bridge.Bridge.Discover | cmd/sdapbridge/ingest.go:184-215 | One status goes on, and changes the books, exactly as said of a boost, a held peer, a settled, a failed and an unrouted post; what that means for the post: `Fates.MetMeans`, `Fates.WhyThere` |
| Bridge.Bridge.Backfill | cmd/sdapbridge/ingest.go:230-255 | An outbox pass settles, queues or routes nowhere each post in turn, exactly as said |
| Bridge.Bridge.AdvanceLastSeen | cmd/sdapbridge/state.go:302-311 | The cursor moves only to a later id |
| Bridge.Bridge.Defer | cmd/sdapbridge/retry.go:52-69 | Queues or counts another attempt with its backoff, and refuses exactly a new post when the queue is full |
| Bridge.Bridge.DeferOrHold | cmd/sdapbridge/retry.go:103-126 | A failure is queued with its peer held, or routed nowhere, unless the instance throttles or the queue is full |
| Bridge.RetryDelay | cmd/sdapbridge/retry.go:42-48 | One minute doubled per attempt after the first, at most thirty |
| Bridge.Bridge.HoldPeer | cmd/sdapbridge/retry.go:129-136 | A hold is only ever extended |
| Bridge.Bridge.DueDeferred | cmd/sdapbridge/retry.go:80-97 | Drops exactly what waited over 24 hours and returns each due post once, oldest first |
| Bridge.Bridge.RetryEach | cmd/sdapbridge/retry.go:152-174 | The due posts have their turns in order up to the first throttled one, each exactly as said |
| Bridge.Bridge.RetryDeferred | cmd/sdapbridge/retry.go:147-174 | The whole pass is the sweep and the turns of what is due, oldest first |
| Replay.SortArchives | cmd/sparkdreamd/cmd/replay_archive.go:455-463 | Sorts the files found by range and keeps them all |
| Replay.DetectArchiveGaps | cmd/sparkdreamd/cmd/replay_archive.go:401-422 | The check accepts exactly when the coverage it tracks never falls short of a file's start |
| Replay.Replayer.HandleBlock | cmd/sparkdreamd/cmd/replay_archive.go:275-376 | One block changes tip, previous block and block store as the specification says, error cases included; over a whole replay: `ReplayOutcome.ReplayExact`, `ReplayOutcome.OnlyWhatApplies` |
| Replay.Replayer.ProcessArchiveFile | cmd/sparkdreamd/cmd/replay_archive.go:470-524 | A file's blocks are skipped below the start, cut at the end and handled in between |
| Replay.Replayer.Replay | cmd/sparkdreamd/cmd/replay_archive.go:260-397 | The loop over files and the last block's save end as the specification says |
| Replay.PreflightExact | cmd/sparkdreamd/cmd/replay_archive.go:260-422 | With files that hold the blocks they name, the check accepts if and only if replay never raises its forward-gap error |
| Replay.CheckPredicts | cmd/sparkdreamd/cmd/replay_archive.go:260-422 | From any point the loop stands where the check says it will |
| Replay.ReplayComplete | cmd/sparkdreamd/cmd/replay_archive.go:260-397 | On acceptance with every commit present, each height up to the end or the last covered one is applied once and stored once, in order |
| Replay.CoverageCovers | cmd/sparkdreamd/cmd/replay_archive.go:401-422 | Every height the check counts as covered lies in some archive |
| Replay.NoGapWhenAccepted | cmd/sparkdreamd/cmd/replay_archive.go:260-376 | Even when a block fails to apply, an accepted set of files raises no forward gap |
| Replay.BackwardsNameRefused | cmd/sparkdreamd/cmd/replay_archive.go:401-422 | A file named with its range backwards is refused although replay would meet no gap |
| Replay.BackwardsExact | cmd/sparkdreamd/cmd/replay_archive.go:260-422 | With backwards names among the files, the check accepts if and only if replay meets no forward gap and no such name starts beyond what is covered at its turn |
| ReplayOutcome.ReplayExact | cmd/sparkdreamd/cmd/replay_archive.go:260-397 | With files that hold what they name, whichever blocks apply: replay stops at the first covered height that does not apply, with that error; else at a gap, with that error, exactly when the check refuses; else at the end, failing exactly when the last block's own commit is missing. It has applied each height before and stored each whose commit came with the next block, the last under its own |
| ReplayOutcome.OnlyWhatApplies | cmd/sparkdreamd/cmd/replay_archive.go:314-333 | Whatever the files hold, replay applies consecutive heights from the start, only blocks that apply, and reports a failure to apply only at one that does not |
| ReplayOutcome.ConfirmedMeans | cmd/sparkdreamd/cmd/replay_archive.go:300-304 | The heights stored along the way are exactly those whose commit the next block brought |
| ReplayOutcome.AllReaches | cmd/sparkdreamd/cmd/replay_archive.go:260-397 | From any point on the way the loop ends where the files still to read and the blocks that apply say |
| RelayRefund.Eligible | app/relayrefund/relayrefund.go:204-283 | Eligible exactly when every message is a relay message, there is a packet, each is fresh on a peer's channel, none repeats, and each update is for a client under them |
| RelayRefund.EligibleMeans | app/relayrefund/relayrefund.go:204-283 | In the messages' own fields: every packet message awaited at an open end of a peer's channel (a receive at its destination by sequence or receipt, any other at its source by commitment), at least one, no packet delivered twice, and updates only for the clients those ends are under |
| RelayRefund.StaleForGood | app/relayrefund/relayrefund.go:285-310 | What IBC keeps from state to state makes a delivered packet stale for good, ordered or unordered, received or sent |
| RelayRefund.RefundedOnce | app/relayrefund/relayrefund.go:156-346 | Over any run of transactions no packet delivery is refunded twice |
| RelayRefund.RefundAmount | app/relayrefund/relayrefund.go:65-72 | Per denom the lesser of the fee and a tenth of the gas rounded up; never more than the fee |
| RelayRefund.Limit | app/relayrefund/relayrefund.go:66-66 | The smallest whole amount of at least a tenth of the gas |
| RelayRefund.Handler.Mark | app/relayrefund/relayrefund.go:156-161 | Adds the transaction's mark, after dropping those of another height |
| RelayRefund.Handler.Take | app/relayrefund/relayrefund.go:164-181 | Reports and forgets the mark; marks of another height count for nothing |
| RelayRefund.Handler.PostHandle | app/relayrefund/relayrefund.go:324-346 | Pays exactly when the transaction succeeded with its mark, exactly the refund, out of the collector |
| RelayRefund.Handler.Execute | app/relayrefund/relayrefund.go:195-346 | From ante to post a transaction is refunded exactly when it was eligible and succeeded, and leaves no mark |
| RelayRefund.Handler.Run | app/relayrefund/relayrefund.go:156-346 | Over any run the collector keeps exactly the fees less the refunds, and the refunded deliveries are all different |
| Oidc.Server.Run | cmd/sdaplogin/oidc.go:123-463 | Any interleaving of critical sections leaves exactly the maps and history that its events make, and keeps the invariant |
| CodeFlow.RunKeeps | cmd/sdaplogin/oidc.go:123-463 | Under every interleaving: open pages stay within their cap, each code yields at most one access token, and each token carries what its code's verify found, redeemed with the secret and the code's PKCE proof |
| CodeFlow.TokenTells | cmd/sdaplogin/oidc.go:361-455 | Every access token issued in a run has a code of its own and carries the identity and delegation of the verify that minted it |
| CodeFlow.PassesExactly | cmd/sdaplogin/oidc.go:275-289 | In every interleaving the verifies that pass a page's gate are counted exactly, and are at most five |
| CodeFlow.CodesExactly | cmd/sdaplogin/oidc.go:361-379 | The codes are exactly those minted by verifies past their gate, each with what its verify found, and never change |
| CodeFlow.TokensExactly | cmd/sdaplogin/oidc.go:443-455 | The access tokens are exactly those issued to exchanges, each for the code its exchange took |
| CodeFlow.ClosedForGood | cmd/sdaplogin/oidc.go:275-289 | Once a page has minted, no verify passes its gate |
| CodeFlow.SecondCodeIff | cmd/sdaplogin/oidc.go:275-379 | A page that has minted can mint again if and only if another of its verifies is past the gate |
| Oidc.Server.Step | cmd/sdaplogin/oidc.go:123-463 | One critical section makes exactly its change, and nothing when it cannot happen |
| Oidc.Server.Authorize | cmd/sdaplogin/oidc.go:186-228 | Opens a page exactly for a well-formed query while there is room, and draws its token; what the page carries on: `CodeOrigin.CodeTraced` |
| Oidc.Server.VerifyGate | cmd/sdaplogin/oidc.go:275-293 | Passes exactly an open, unexpired page with a try left, counts the try, and closes any other |
| Oidc.Server.VerifyMint | cmd/sdaplogin/oidc.go:361-379 | Closes the page and puts the verify's identity, delegation and challenge behind a new code |
| Oidc.Server.TokenTake | cmd/sdaplogin/oidc.go:407-441 | The code is gone whatever follows; the exchange goes on exactly with the secret, in time, the same redirect and a matching verifier |
| Oidc.Server.TokenMint | cmd/sdaplogin/oidc.go:443-455 | One access token for that code, with the identity behind it |
| Oidc.Server.Sweep | cmd/sdaplogin/oidc.go:123-139 | Drops exactly the expired pages, codes and tokens |
| CodeFlow.CodesPerPage | cmd/sdaplogin/oidc.go:275-293 | A login page mints at most as many codes as it has tries |
| CodeFlow.TwoCodesOnePage | cmd/sdaplogin/oidc.go:275-379 | A run from the start after which one page has minted two codes, for two accounts |
| CodeFlow.TokenMinted | cmd/sdaplogin/oidc.go:443-455 | A token from a held code keeps one token per code and its origin |
| CodeFlow.CodeTaken | cmd/sdaplogin/oidc.go:425-441 | Taking a code makes it spent for good, held by one exchange at most |
| CodeOrigin.CodeTraced | cmd/sdaplogin/oidc.go:186-379 | Every code of a run goes back, in order, to a well-formed authorize query that opened its page, a verify that passed that page's gate within ten minutes, and its mint; it carries that query's nonce and challenge and that verify's identity, for a minute |
| CodeOrigin.TokenTraced | cmd/sdaplogin/oidc.go:186-470 | Every access token of a run goes back to such a code and to the exchange that took it within its minute, with the client's secret, the registered redirect and, when the query brought a challenge, a verifier that hashes to that challenge (section 4.6 of RFC 7636); while it lasts it tells that verify's identity, for ten minutes from the exchange |
| CodeOrigin.PageOpened | cmd/sdaplogin/oidc.go:186-228 | Every open page was opened by a well-formed query, whose state, nonce and challenge it holds |
| CodeOrigin.SignInSucceeds | cmd/sdaplogin/oidc.go:186-455 | A sign-in with a well-formed query, in time, with the secret, the redirect and the right verifier ends in a token for its account, from any state with room |
| CodeOrigin.OpenWhileTriesLeft | cmd/sdaplogin/oidc.go:275-289 | A page lets a verify in exactly while it is open, in time and has let in fewer than five |
| CodeOrigin.SweepClears | cmd/sdaplogin/oidc.go:123-139 | After a sweep nothing expired is left |
| CodeOrigin.SweepUnseen | cmd/sdaplogin/oidc.go:123-139 | And no gate, exchange or userinfo from then on can tell that it ran |

## Left out

- Access control, flags, status and parameter checks that only refuse a message; inbox caps are one flag of the message, and batch guards such as duplicate recipients are not modelled, so the invariants hold without them.
- What a unit sale pays the seller and its fees; crafting; revocation (a burn by the issuer); multi-entry unit transfers (a sequence of single ones); addresses are opaque keys.
- Refunds to an address that does not decode or is blocked, the 256-bit bound of coin amounts, and wrap-around of the pending and listing id counters.
- LedgerAdmission.AcceptedIff: is about the ledger's own checks; the checks named in the first line can refuse a message besides.
- LedgerRewards.RewardsFollowUnits: is an inequality, because settling rounds; `RewardsExact` is the equation.
- Merkle.VerifyBinds: needs both leaves of the pair canonical; `BoundIffCanonical` shows that nothing weaker will do.
- Shield.ConstraintsMean: takes as a hypothesis that the BN254 scalar modulus is prime, in the form that it has no zero divisors.
- The gadget library's own constraints (`Select` is the linear selection it stands for), the squaring that puts the message hash into a constraint and holds of any value, Groth16 itself, key derivation from signatures or seeds.
- The JSON form of segments, manifest and takedown file, the reader's line limit, and what is on disk when a process dies or an append fails half way; a file or directory is a map from names to lines.
- EffectiveScannedHeight and QuorumFor, which are one expression each.
- Slices of 2^63 bytes or more, and the difference between a nil and an empty slice, in the fragment codec; the inner Any's own generated code, taken to write its two fields as the message's does.
- The remote timeline: pages are what a poll is handed, strictly ordered and after the cursor as `since_id` promises; routing is a parameter of each poll; saving the state, revisits, follows and reconciliation.
- Replay.PreflightExact: takes every block to apply; `ReplayOutcome.ReplayExact` is the form for any blocks.
- Block contents, signatures and the application: whether a block applies is an oracle.
- The order in which the tax pass lists due tokens and its limit per block (any list of due entries is covered), the record of failed expiries, events, and the other end-block passes; that session's claim reports a failed pull only when it moved nothing is taken from its adapter.
- RelayRefund.RefundedOnce: covers runs where a marked transaction reaches its post handler, and takes from IBC that receive sequences and receipts only grow and a commitment is made once per sequence sent.
- CheckTx and simulation, which neither mark nor take; port and channel names containing a slash, which the in-transaction key would confuse.
- Random tokens of the sign-in server are taken to be new when drawn; a signing failure after a code is taken leaves that exchange unfinished.
- Signature, membership and name checks of a sign-in (their outcome is the event), userinfo, and the membership cache.
