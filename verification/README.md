# EZchain V2 protocol core

EZchain keeps a stateful chain of per-account bundles. A block stores, for each account it touches, a leaf in a
sparse Merkle tree; receipts prove leaves; wallets hold integer ranges of value, spend parts of them in bundles,
and hand each recipient an off-chain history of the range, which the recipient's validator walks down to a genesis
range or to a checkpoint of its own. This project models that core and proves what the parts promise each other.

`dafny verify dfyconfig.toml` checks everything.

## How it is built

| files | what they hold |
|---|---|
| `Prelude`, `Values`, `Types` | sorting and sums, value ranges, the protocol's records with their constructor checks as subset types |
| `Smt`, `ClaimSet`, `Encoding`, `Der` | the sparse Merkle tree and its proofs, claim sets, the canonical encoding, DER signatures |
| `Ledger`, `BundlePool`, `ReceiptCache`, `Chain`, `ChainObjects` | hashing helpers, the pool, the receipt window, the chain as a value and as the mutable class |
| `ChainRuns`, `Agreement`, `ChainInvariant`, `Runs`, `Replay`, `BlockRules` | what whole runs of a chain keep, why producer and replica agree, and exactly which blocks are accepted |
| `ConsensusStore`, `StoreObjects`, `Node`, `StoreRules` | the persistent store, what loading it rebuilds, and exactly when it saves and loads |
| `Validator`, `Acceptance`, `History` | the recipient's validator, exactly what it accepts, and uniqueness of ownership history |
| `Selection`, `Partition`, `Wallet`, `WalletObjects`, `Storage` | coin selection, cutting ranges, the wallet as a value and as the mutable class, its database |
| `TwoPhase`, `WalletInvariant`, `Conservation` | building and confirming against spending at once, and conservation over many wallets |
| `BundleRules`, `ReceiptRules`, `Recovery` | exactly when a bundle is built and a receipt confirmed, and that nothing stays locked |
| `HonestWallet`, `HonestConfirm`, `Trace`, `Emission`, `Participant`, `HonestTrade`, `HonestRun` | honest runs of many wallets and one chain: what is exported is accepted |
| `Payments`, `HonestStorage` | honest runs get somewhere: a payment that can be built is confirmed and arrives; and a wallet's database beside a run loses nothing |

Code that changes state in place is modelled twice: as a function from the old state to the new one, and as a class
whose methods, loops included, are proved to do exactly what that function says and to change nothing when they
raise. The laws are proved about the functions. For each operation that decides something there is a law that says, over
the fields and in both directions, exactly what it lets through; the laws about whole runs rest on these.

A `hide` at the head of a proof names bodies that the proof does not need. It only keeps the verifier's search short:
no definition is opaque, and no contract depends on it.

Modelling choices:

- Hashes are a free algebra: one constructor per hashing domain, so digests are equal exactly when domain and payload
  are. A signature carries its signer and the digest it signs. An address is identified with its tree key.
- The tree depth is a parameter of the tree; the chain uses 256.
- SQL tables are maps, and each wallet or store method is one atomic step. Record ids come from a counter.
- Clocks, encoded sizes, signing nonces and timestamps are parameters.

## Hypotheses

- `verify_proof` ignores the value when a proof claims absence, and its callers do not look at the flag. Claims that a
  proof binds a leaf therefore speak of existence proofs: `CanonicalUnit` asks for one, and in honest runs receipts are
  those the chain emitted.
- The pool compares expiry with the current height, application with the next one. Agreement and replay are therefore
  stated as equivalences with the freshness of what was packaged, and `StaleBundleIsPooledThenRefused` shows the gap.
- `apply_block` does not recompute an entry's key or its head's sequence number and height, nor does it look at the chain
  id inside a bundle, which the pool checks. Runs range over received blocks of the shape every proposer writes (`Shaped`).
- `materialize_proof` reads existence from the listed keys, `prove` from the tree; for a listed key they agree exactly
  when the key is stored.
- The validator does not check that headers are canonical or where the oldest unit points. Uniqueness of history asks
  for canonical headers and complete segments.
- `build_block` packages an empty snapshot into an empty block, while its callers refuse to package nothing. Runs contain
  no empty block: producing from an empty snapshot does nothing, and `Shaped` asks for an entry.
- An honest run (`RunHonest`) asks of a wallet only that it numbers its bundles in turn, confirms receipts the chain
  emitted and rolls back only a bundle that is neither pooled nor in a block, and of everybody else that nobody submits
  for a wallet's account anything but a sequence number pending there. Packages may be delivered in any order, any
  number of times, in any context. Genesis ranges are pairwise disjoint. A run beside a database also asks that the
  batches receipts arrive with are the chain's.
- Of all this, conservation needs only disjoint genesis ranges and that no wallet builds under a number it already has a
  receipt for (`RunFresh`; `build_bundle` takes any number, and `next_sequence` never gives such a one): it holds for
  every run of the wallets, whatever receipts, headers and contexts they are given.
- The receipt cache widens a window of less than one block to one block, the store does not: their agreement is for
  windows of at least one block.
- Three components of the cost of a coin selection do not cancel when some record's distance to a checkpoint is unbounded
  (`UnboundedTurnsRound`). Optimality is claimed for the leading counts of records, splits and checkpoint misses always,
  and for units to checkpoints, units and age as well where every record has or goes back to a checkpoint.

## Model

| member | source | states |
|---|---|---|
| HonestRuns.ConfirmedBundleIsAccepted | EZ_V2/wallet.py:773-797 | In every honest run of many wallets and one chain, once a wallet has confirmed a receipt, every range of every transfer of that bundle is exported, and the recipient's validator, trusting only checkpoints the recipient can vouch for from its own records, accepts the package |
| HonestRuns.SentValuesAreAccepted | EZ_V2/wallet.py:773-797 | The same at every later moment: whatever a wallet has archived as sent is exported and accepted, for as long as the run goes on |
| HonestRuns.RunKeepsWorld | EZ_V2/wallet.py:682-722 | Every honest step of any wallet or of the chain keeps the joint invariant of wallets, mail, blocks, pool and receipt window |
| HonestRuns.ProducedIsHonest | EZ_V2/chain.py:354-368 | A produced block packages for each wallet only a sequence number that wallet has pending |
| HonestRuns.EmittedMakesNextUnit | EZ_V2/wallet.py:682-722 | A receipt the chain emitted and the wallet confirms makes the wallet's next unit: right sequence number, linked to the previous unit, at a greater height |
| HonestTrades.StepKeepsTrade | EZ_V2/wallet.py:799-823 | Every wallet step, deliveries in any context included, keeps all wallets in step with the chain and all histories traceable to records their owners still have |
| HonestTrades.ReceivedIsFine | EZ_V2/wallet.py:799-823 | What is received has a full history that is accepted trusting no checkpoint at all, although it travelled shortened |
| Payments.PaymentGoesThrough | EZ_V2/wallet.py:682-722 | Progress: at every moment of an honest run, a wallet that can build a bundle within the pool's limits can, after submitting it, producing a block from the whole pool and learning its header, confirm the receipt the chain emitted for it; the four steps are an honest run |
| Payments.PaymentArrives | EZ_V2/wallet.py:773-797 | Once that receipt is confirmed, every range of every transfer of the bundle is exported and accepted |
| Payments.ConfirmsOwnBundle | EZ_V2/wallet.py:682-722 | Once a wallet knows the header, it confirms an emitted receipt for its pending number exactly when the block packaged the wallet's own bundle |
| Payments.PooledIsEmitted | EZ_V2/chain.py:354-368 | A block produced from the whole pool emits a receipt for every pooled bundle |
| Payments.CountsAgree | EZ_V2/chain.py:227-238 | While an honest wallet has nothing pending, chain and wallet have counted the same bundles, so the pool takes its next one |
| Payments.RunKeepsLive | EZ_V2/wallet.py:682-722 | In every state of an honest run each wallet's newest unit is on the chain |
| Participants.ConfirmKeepsInStep | EZ_V2/wallet.py:682-722 | Confirming moves a wallet one unit further and leaves the chain not ahead of it |
| ReceiptRules.ConfirmDecides | EZ_V2/wallet.py:682-713 | Exactly when a receipt is confirmed, over the fields: its number is pending, the wallet observed this very header at its height, it follows the stored previous unit (none for number 1), and its own proof verifies the leaf of the pending bundle |
| ReceiptRules.ObserveKnows | EZ_V2/wallet.py:120-133 | Observing a header makes it the one known at its height and changes nothing else |
| ReceiptRules.ConfirmedOnlyUnderObserved | EZ_V2/wallet.py:682-722 | In every run of any wallets, whatever receipts and headers they are offered, each stored unit was confirmed by a step before which its wallet had observed the unit's header |
| ReceiptRules.StoredUnitsAreOnChain | EZ_V2/wallet.py:120-133 | So a wallet that observes only headers of the chain stores, whoever made the receipts, only units the chain holds, as far as they were proved by existence |
| Participants.BuildKeepsInStep | EZ_V2/wallet.py:554-638 | Building leaves exactly the next bundle pending and every pending record marked by it |
| Participants.RollbackKeepsInStep | EZ_V2/wallet.py:750-763 | Rolling back a bundle that never left the wallet keeps the wallet in step with the chain and makes the bundle's records spendable |
| Recoveries.RollbackReleases | EZ_V2/wallet.py:750-763 | Rolling back succeeds exactly for a pending number; it makes every record of that bundle spendable, changes no other record and forgets the bundle |
| Recoveries.MissMarks | EZ_V2/wallet.py:724-736 | Marking a receipt missing succeeds exactly for a pending number; it marks the bundle's pending records, changes no other record and keeps the bundle |
| Recoveries.BuildThenRollbackRestores | EZ_V2/wallet.py:554-763 | Building a bundle and rolling it back restores the available balance and how often each point can be spent |
| Recoveries.RollbackFreesAll | EZ_V2/wallet.py:750-763 | In every state of every run, rolling back leaves each record spendable or archived, and the available balance is everything the wallet has not sent away |
| Recoveries.IdleIsSettled | EZ_V2/wallet.py:151-167 | In every state of every run, a wallet with nothing pending has only spendable and archived records, so its available balance is its total balance |
| Recoveries.RunExplains | EZ_V2/wallet.py:554-763 | In every state of every run, a record that is neither spendable nor archived belongs to the bundle its wallet has pending |
| HonestRuns.NothingStaysLocked | EZ_V2/wallet.py:554-763 | The same in every state of an honest run with a chain |
| Participants.MissKeepsInStep | EZ_V2/wallet.py:724-736 | Marking a receipt missing keeps the wallet in step with the chain |
| Participants.BlockKeepsInStep | EZ_V2/chain.py:512-618 | A further block keeps a wallet in step when its emissions for that wallet are |
| EmittedReceipts.ProvenEmission | EZ_V2/chain.py:149-155 | A receipt emitted for a bundle whose proof verifies binds the bundle's claims and follows the previous bundle at a lower height |
| EmittedReceipts.EmittedVerifies | EZ_V2/chain.py:149-155 | An emitted receipt verifies for a bundle exactly when that bundle is the one its block packaged |
| EmittedReceipts.HeadIsNewest | EZ_V2/chain.py:386-418 | The reference an account's next bundle follows is that of its newest unit on the chain |
| Traces.TrimmedIsTrusted | EZ_V2/wallet.py:254-312 | A history accepted in full is accepted after it was cut at the recipient's own earlier ownership, given the checkpoints the recipient finds in its records |
| Traces.RestoredIsValid | EZ_V2/wallet.py:281-329 | Cutting a history for a recipient and restoring it from the recipient's records gives a history accepted without any checkpoint, with the same newest unit |
| Traces.MatchIsKeptRecord | EZ_V2/wallet.py:209-217 | The record a checkpoint finds is the very record the history was sent from |
| HonestConfirms.SettledAreFine | EZ_V2/wallet.py:420-482 | Confirming a bundle turns its outgoing records into ones their recipients' validators accept, and keeps every other record valid |
| HonestConfirms.SentIsValid | EZ_V2/validator.py:77-143 | A record topped by the unit that sends it away passes every check of the validator |
| HonestWallets.BuildKeepsFine | EZ_V2/wallet.py:532-638 | Building keeps every record valid, and every range of the bundle gets an outgoing record |
| Conservation.ValueIsConserved | EZ_V2/wallet.py:554-638 | In every run of any number of wallets from disjoint allocations that builds under no number already confirmed, each genesis point has exactly one holder and no other point has any: a live record, or an archived one not yet accepted by its recipient |
| Conservation.HoldersAreUnique | EZ_V2/wallet.py:799-823 | No two records anywhere in such a run hold the same point: nothing is duplicated or accepted twice |
| Conservation.NothingIsLost | EZ_V2/wallet.py:682-763 | Every genesis point still has a holder in such a run |
| Conservation.StepConserves | EZ_V2/wallet.py:682-823 | Every operation leaves the number of holders of every point alone, building under any number not yet confirmed included |
| Conservation.DeliveryTotal | EZ_V2/wallet.py:799-823 | Accepting a package moves its points from the sender's archived record to the recipient's new one |
| Conservation.AcceptedIsPackageFor | EZ_V2/wallet.py:773-797 | A sent package that some validator accepts is the one package for its record |
| WalletInvariants.BuildKeeps | EZ_V2/wallet.py:554-638 | Building keeps the wallet's invariant, its archived records and every point it holds |
| WalletInvariants.ConfirmKeeps | EZ_V2/wallet.py:682-722 | Confirming keeps the wallet's invariant, its archived records and every point it holds |
| WalletInvariants.MarkKeeps | EZ_V2/wallet.py:724-736 | Marking a receipt missing keeps the wallet's invariant and every point |
| WalletInvariants.RollbackKeeps | EZ_V2/wallet.py:750-763 | Rolling back keeps the wallet's invariant and every point, and makes the bundle's records spendable |
| WalletInvariants.AppendKeeps | EZ_V2/wallet.py:498-518 | One more spendable record adds its points and nothing else |
| WalletInvariants.AssignedFit | EZ_V2/wallet.py:532-552 | The targets given to a record lie in it without overlap, and only spendable records get any |
| WalletInvariants.SplitIsNeverRefused | EZ_V2/wallet.py:578-612 | No partition is refused while building |
| WalletInvariants.NothingBeside | EZ_V2/validator.py:134-143 | In a bundle without overlaps nothing but the transfer that names a range touches it |
| WalletInvariants.CoveringTxIsFirst | EZ_V2/wallet.py:773-797 | In a bundle without overlaps the transfer covering a sent range is the one that names it |
| TwoPhase.TwoPhaseRefinesOneShot | EZ_V2/wallet.py:738-748 | Building a bundle and confirming it gives the same multiset of value, status and history as applying the confirmed unit at once |
| TwoPhase.ConfirmIsSettle | EZ_V2/wallet.py:420-482 | Confirming a pending bundle changes every record on its own and never cuts one |
| TwoPhase.AssignedIsContained | EZ_V2/wallet.py:532-552 | With disjoint spendable records each target goes to the one record that contains it |
| TwoPhase.NewIdsArePending | EZ_V2/wallet.py:590-612 | Exactly the newly drawn ids are pending, the outgoing ones among them |
| Selection.ChoosePlan | EZ_V2/wallet.py:363-409 | Fails exactly when the records hold less than the amount; otherwise the plan pays the amount and no way of taking amounts from records has a lexicographically smaller count of records, splits and missed checkpoints, nor, where every record has or goes back to a checkpoint, as few of these and fewer units up to checkpoints, fewer units, or newer records |
| Selection.SelectPaymentRanges | EZ_V2/wallet.py:363-418 | Fails exactly for a non-positive amount or too little balance; otherwise returns the optimal plan's ranges sorted, disjoint for disjoint records, each inside a spendable record, and summing to the amount |
| Selection.PurseInOrder | EZ_V2/wallet.py:172-185 | The planner sees each spendable record once, in the order of history length, age, size and begin |
| Selection.TopUpDominates | EZ_V2/wallet.py:376-405 | For every way of paying, taking its records whole in order and topping up with the last one needed is no worse |
| Selection.PlanIsWay | EZ_V2/wallet.py:331-361 | Every plan is a way of paying with the same leading cost |
| Selection.PlanCost | EZ_V2/wallet.py:331-361 | The loop computes all seven components of the cost; their head is the leading cost (`LeadIsOfCost`) |
| Acceptance.UnitsOfAllParts | EZ_V2/wallet.py:190-207 | The units counted are those of all layers of a history; the distance to a checkpoint is that number when the history ends in one, and unbounded otherwise |
| Selection.IsCheaper | EZ_V2/wallet.py:331-361 | Prefers exactly the plan with the smaller cost tuple, and so never one with a larger leading cost |
| Selection.CostsCompare | EZ_V2/wallet.py:331-361 | Of two different costs exactly one is the smaller |
| Selection.UnboundedTurnsRound | EZ_V2/wallet.py:190-207 | Three concrete records: unbounded distances do not cancel, so the preference between two plans turns round when one record is added to both, and a table that keeps the cheaper one loses the better |
| Selection.BestIsOptimal | EZ_V2/wallet.py:372-409 | The best plan after all records have been offered is optimal among all ways |
| Selection.BalanceIn | EZ_V2/wallet.py:141-149 | The balance in a status is the sum of the records in it, and without a status the sum of all records not archived |
| Selection.BalanceBreakdown | EZ_V2/wallet.py:135-139 | The balances per status add up to the total balance |
| Selection.AvailableBalance | EZ_V2/wallet.py:151-152 | The available balance is what the records the planner may use hold |
| Partitions.PartitionRange | EZ_V2/wallet.py:59-78 | Refuses exactly targets that overlap or leave the source, and otherwise returns the walk's segments |
| Partitions.PartitionTiles | EZ_V2/wallet.py:59-78 | The segments cover each point of the source once and no other, and the outgoing ones are the targets in order |
| WalletObjects.WalletAccountV2.BuildBundleFor | EZ_V2/wallet.py:554-638 | Either builds the bundle of the specification or raises its error with nothing stored |
| WalletObjects.WalletAccountV2.BuildPaymentBundle | EZ_V2/wallet.py:640-680 | Over disjoint records with distinct ids it succeeds exactly for a positive amount within the balance, with nothing pending and the own key; it then pays exactly the amount in one transfer under the right number, and otherwise stores nothing |
| BundleRules.BuildDecides | EZ_V2/wallet.py:554-612 | Exactly when a bundle is built: own key, nothing pending, at least one transfer and all of them own, no two ranges overlap, and each lies in a spendable record |
| BundleRules.BuiltEnvelope | EZ_V2/wallet.py:613-638 | What is signed names version, chain, number, expiry, fee and anti-spam nonce as given, and the hashes of the bundle and of its claims; that bundle alone is then pending |
| BundleRules.CheckpointDecides | EZ_V2/wallet.py:825-840 | A checkpoint is stored exactly for a listed record with a confirmed unit: it names the record's range, the wallet and the newest unit's block and bundle, and replaces only one of the same key |
| BundleRules.CheckpointsStayOrdered | EZ_V2/wallet.py:825-840 | The list of checkpoints stays ordered by range and height |
| BundleRules.StoredCheckpointIsKnown | EZ_V2/wallet.py:278-312 | The stored checkpoint is one the wallet vouches for, and the one at which a history sent back to it is cut |
| BundleRules.NextIsFirstUnused | EZ_V2/wallet.py:169-170 | The next sequence number is above every number received or pending, and one more than one of them, or 1 |
| WalletObjects.WalletAccountV2.ReceiptConfirmed | EZ_V2/wallet.py:682-722 | Either confirms as specified, for a pending bundle under the header observed at that height, or raises with nothing stored |
| WalletObjects.WalletAccountV2.ApplyConfirmedUnit | EZ_V2/wallet.py:738-748 | Either applies the unit as specified or raises with nothing stored |
| WalletObjects.WalletAccountV2.ReceiptIsMissing | EZ_V2/wallet.py:724-736 | Marks the pending records as specified |
| WalletObjects.WalletAccountV2.RollBack | EZ_V2/wallet.py:750-763 | Succeeds exactly for a pending bundle, forgets it and makes its records spendable; otherwise nothing is stored |
| WalletObjects.WalletAccountV2.Export | EZ_V2/wallet.py:773-797 | Exports the first archived record that fits, or raises |
| WalletObjects.WalletAccountV2.Receive | EZ_V2/wallet.py:799-823 | Either receives as specified or raises with nothing stored |
| WalletObjects.WalletAccountV2.Checkpoint | EZ_V2/wallet.py:825-840 | Stores the checkpoint of a record that has a confirmed unit under its key, in place of a former one, or raises |
| Wallets.CheckpointSaved | EZ_V2/storage.py:615-642 | Saving a checkpoint replaces the one under the same key, if any, and leaves every other one |
| WalletObjects.WalletAccountV2.AddGenesis | EZ_V2/wallet.py:498-518 | Adds the genesis record |
| WalletObjects.WalletAccountV2.Observe | EZ_V2/wallet.py:120-130 | Stores the header under its height |
| WalletObjects.WalletAccountV2.AssignTargets | EZ_V2/wallet.py:532-552 | The loop over targets finds the assignment of the specification or none |
| WalletObjects.WalletAccountV2.SplitRecords | EZ_V2/wallet.py:578-612 | The loop over records builds the split of the specification or the first refusal |
| WalletObjects.WalletAccountV2.ConfirmAll | EZ_V2/wallet.py:420-482 | The loop over records builds the confirmed records of the specification or the first refusal |
| WalletObjects.WalletAccountV2.CheckReceipt | EZ_V2/wallet.py:682-710 | Reports the first failing check of a receipt; none only for a pending bundle under the header observed at that height |
| Wallets.MaxOf | EZ_V2/storage.py:500-513 | The highest sequence number in use is above all others |
| Wallets.FirstFit | EZ_V2/wallet.py:532-552 | The record found is spendable, covers the target and has no overlapping assignment; if none is found, none fits |
| Wallets.FirstExport | EZ_V2/wallet.py:773-797 | The record found is archived, owned, of that value and holds the transfer once; if none is found, none does |
| Validation.SplitAcceptance | EZ_V2/validator.py:77-170 | What is accepted for a value is accepted with the same history for a part of it exactly when the part is the value or the history holds no checkpoint |
| Validation.SegmentError | EZ_V2/validator.py:104-143 | A segment passes exactly when every unit passes its checks |
| Validation.TransferError | EZ_V2/validator.py:77-102 | Nothing with an empty segment is accepted, nor a history that ends in a checkpoint outside the trusted list; exactly what is accepted says `Acceptance.AcceptedIffStanding` |
| Acceptance.AcceptedIffStanding | EZ_V2/validator.py:77-170 | Exactly when a transfer is accepted, over the fields: every layer of the history belongs to its sender, ends with the one transfer that covers the value, claims nothing of it before, is linked and proved and was acquired below its oldest unit; and the bottom is a listed genesis range that contains the value, or a checkpoint that is a member of the trusted list and names the value and its owner |
| Acceptance.CheckpointIsTrusted | EZ_V2/validator.py:25-29 | If the accepted history ends in a checkpoint, that checkpoint is in the trusted list; with an empty list no history that ends in one is accepted |
| Acceptance.TrustingItself | EZ_V2/wallet.py:281-312 | A recipient that trusts only what it can vouch for accepts exactly histories that stand and go back to genesis or to its own earlier ownership of this very value, still shown by its records |
| Acceptance.VouchesForOwn | EZ_V2/wallet.py:281-312 | A wallet vouches for exactly the checkpoint a history ends in, when it is the owner and one of its records has a unit of that height, block and bundle |
| Acceptance.TrimKeepsForeign | EZ_V2/wallet.py:254-276 | Cutting leaves a history unchanged when no layer of it is the recipient's own earlier holding of the value |
| Acceptance.TrimEndsAtOwn | EZ_V2/wallet.py:254-276 | Otherwise it keeps the layers down to the recipient's newest such holding and ends there in the checkpoint of that holding's newest unit |
| Acceptance.ExportDecides | EZ_V2/wallet.py:773-797 | A value is exported exactly when the wallet is the transfer's sender and an archived own record of exactly this value has the transfer once in its newest bundle; what is exported is such a record's history cut for the recipient |
| Acceptance.ReceiveDecides | EZ_V2/wallet.py:799-823 | A package is received exactly when it was not accepted before and its history is accepted for this wallet; then one spendable record of its value is added, acquired at the height of its newest unit, and the package is remembered |
| Validation.LinkAccepted | EZ_V2/validator.py:145-170 | Accepting a linked history means accepting its prior history, which was acquired below the oldest unit |
| Histories.HistoryIsUnique | EZ_V2/validator.py:77-170 | Any two accepted packages that share a point, with canonical complete histories rooted in disjoint genesis ranges, tell paths of which one is a prefix of the other; equally long ones end in the same transfer, recipient and header |
| Histories.AcceptedHistoryIsTrace | EZ_V2/validator.py:77-170 | The chain's own story of a point starts with the history of any accepted package covering it and goes on from its recipient |
| Histories.SegmentIsNextSpend | EZ_V2/validator.py:104-143 | The transfer an accepted segment ends with is the owner's first spend of every point since the acquisition |
| Histories.ProvenUnitIsOnChain | EZ_V2/validator.py:112-122 | A verifying existence proof under a canonical header binds bundle, predecessor and height of a unit |
| Histories.GapIsQuiet | EZ_V2/chain.py:386-418 | Between a bundle and its predecessor no block holds a bundle of the account |
| Histories.TargetSpends | EZ_V2/validator.py:124-143 | The newest bundle of an accepted segment spends each point of the value in the target transfer alone |
| Histories.UnclaimedIsUnspent | EZ_V2/validator.py:129-133 | An older bundle of an accepted segment spends no point of the value |
| Replay.ReplicaAgrees | EZ_V2/chain.py:420-618 | A block produced from the pool is accepted by a replica in the same state exactly when every packaged bundle outlives the next height, and then leaves the replica in the producer's state with the same receipts |
| Replay.StaleBundleIsPooledThenRefused | EZ_V2/chain.py:238 | The pool admits a bundle that expires at the current height although the block that packages it is refused |
| Replay.GapExists | EZ_V2/chain.py:238 | A concrete chain and bundle: at height 0 a bundle that expires at 0 is pooled, and the block produced from the pool is refused by its own producer's checks |
| Replay.ReplayRebuilds | EZ_V2/consensus_store.py:350-384 | Replaying the blocks of a run without stale bundles never fails and rebuilds the chain up to the pool |
| Replay.ReachableHistoryIsLinear | EZ_V2/chain.py:386-418 | From any head in any reachable state, following previous references visits sequence numbers n, n - 1, ..., 1 at strictly falling heights |
| Replay.ReachablePoolIsExecutable | EZ_V2/chain.py:227-274 | In every reachable state a pending bundle is its sender's and carries the confirmed sequence number plus one |
| Replay.ReachableWindow | EZ_V2/chain.py:158-210 | In every reachable state a receipt is found by sequence number and by reference exactly while its height is one of the last N |
| Runs.RunKeepsInv | EZ_V2/chain.py:301-618 | Every state a run reaches has good blocks, leaves and tree determined by them, an executable pool and an exact receipt window |
| Runs.PendingIsOnlySuperseded | EZ_V2/chain.py:227-298 | Along every run a sender's pending bundle is replaced only by one with the same sequence number and bundle hash and a strictly higher fee; otherwise it stays, or a block has moved the sender's confirmed number past it |
| Runs.BuildIsCommit | EZ_V2/chain.py:420-510 | Producing packages the snapshot into a good block and commits it exactly as applying it would |
| Runs.AcceptedBlockIsGood | EZ_V2/chain.py:512-577 | A block of the proposers' shape that passes the checks is one an honest proposer would write, each entry signed by its leaf's account |
| Runs.PoolAfterBlock | EZ_V2/chain.py:288-298 | After a block the remaining pool is executable on the new leaves |
| Agreement.ProducedBlockChecks | EZ_V2/chain.py:512-577 | A replica's checks pass on a produced block exactly when every bundle outlives the next height |
| Agreement.ProducedEntryChecks | EZ_V2/chain.py:544-577 | Of all the checks of an entry only the expiry check can fail on a produced one |
| Agreement.NewBlockHashIsDerived | EZ_V2/chain.py:111-137 | The hash derived from provisional entries is the one derived from the final ones |
| Agreement.SnapshotInOrder | EZ_V2/chain.py:276-283 | The snapshot lists each sender once, in key order |
| Chains.GeneratedProofVerifies | EZ_V2/chain.py:595-606 | The proof made for a block's own entry verifies, so the raise after the cache writes cannot happen |
| Chains.AcceptedBlockShape | EZ_V2/chain.py:512-577 | What the checks establish about a block, the signature of every entry by its leaf's account included |
| BlockRules.AcceptedIffHonest | EZ_V2/chain.py:512-618 | In every reachable state, a block of the proposers' shape is accepted exactly when it is the block an honest proposer assembles, with its time, signature and extra data, from some signed, executable, unexpired bundles of different senders in key order: version, chain, height, predecessor, both roots and the block hash included |
| BlockRules.AcceptedEntriesAreSigned | EZ_V2/chain.py:544-577 | In every accepted block, of any shape, each entry's envelope is signed by the account of its leaf over its own payload, commits to its sidecar and claims, has not expired and follows the old leaf |
| BlockRules.EntryChecksDecide | EZ_V2/chain.py:544-577 | The checks of one entry pass exactly when it is owned and signed, commits to its bundle and follows its account's leaf, each over the fields |
| BlockRules.HeaderChecksDecide | EZ_V2/chain.py:512-543 | The checks of the header pass exactly when the block is the chain's next, its keys ascend strictly, there is a public key for each, and its hash names header, keys and bundle hashes |
| Chains.BuildIgnoresWindow | EZ_V2/chain.py:370-384 | Block and receipts do not depend on the blocks listed and receipts cached before |
| ChainObjects.ChainStateV2.Apply | EZ_V2/chain.py:512-618 | All or nothing: commits exactly as specified, and only a block whose every entry is signed by its leaf's account, or reports the first failing check with height, hash, tree, leaves, blocks, cache and pool unchanged |
| ChainObjects.ChainStateV2.CommitBlock | EZ_V2/chain.py:578-618 | Writing a checked block reaches the committed state; the raise on a bad proof is dead code |
| ChainObjects.ChainStateV2.CheckBlock | EZ_V2/chain.py:512-577 | Reports the first failing check, none only when every entry is signed by its leaf's account, and stages tree and leaves without touching the chain |
| ChainObjects.ChainStateV2.Execute | EZ_V2/chain.py:420-510 | Packages, commits and removes the bundles as specified |
| ChainObjects.ChainStateV2.Build | EZ_V2/chain.py:354-368 | Builds from the pool's snapshot |
| ChainObjects.ChainStateV2.Preview | EZ_V2/chain.py:370-384 | Answers what building now would, and changes nothing |
| ChainObjects.ChainStateV2.Copy | EZ_V2/chain.py:327-338 | A chain in the same position with empty pool, cache and block list |
| ChainObjects.ChainStateV2.SubmitBundleTo | EZ_V2/chain.py:346-352 | Pools a bundle as specified or changes nothing |
| ChainObjects.ChainStateV2.EmitReceipts | EZ_V2/chain.py:578-606 | Writes batch and receipts of a block into the cache as specified |
| ChainRuns.TreeCommitsToLeaves | EZ_V2/chain.py:412-418 | After any good blocks the tree stores the hash of exactly the account leaves |
| ChainRuns.HistoryIsLinear | EZ_V2/chain.py:386-418 | In good blocks every account's history is one line back to sequence number 1 |
| ChainInvariants.LogHasNoDuplicates | EZ_V2/chain.py:167-172 | Good blocks never emit an account sequence number or a bundle reference twice |
| ChainInvariants.EmissionsAreBehind | EZ_V2/chain.py:340-344 | No emitted sequence number is ahead of the confirmed one |
| BundlePools.BundlePool.Submit | EZ_V2/chain.py:227-274 | Accepts, replaces or refuses as specified; a refused bundle changes nothing |
| BundlePools.SubmitDecides | EZ_V2/chain.py:227-274 | Exactly what the pool takes: a bundle for this chain, signed by its sender, not expired, within every limit, committing to its sidecar and claims, that is the next number, or the pending bundle again, the same or for a higher fee; it then stands in place of what was pending |
| BlockRules.ChainSubmitDecides | EZ_V2/chain.py:346-352 | A chain takes exactly what is admissible at its own height and limits and next after its own leaf, and only its pool changes |
| BundlePools.SnapshotIsPrefix | EZ_V2/chain.py:276-283 | A snapshot lists the pending bundles of all senders in key order, up to the limit if there is one |
| BundlePools.BundlePool.RemoveFinalizedBundle | EZ_V2/chain.py:288-298 | Removes the pending bundle as specified and says whether it did |
| BundlePools.RemoveDecides | EZ_V2/chain.py:288-298 | A finalised number removes its sender's pending bundle exactly when that one is not numbered higher, and no other sender's |
| ReceiptCaches.BlockKeepsWindow | EZ_V2/chain.py:158-199 | Recording a block keeps the cache holding exactly the last N blocks |
| ReceiptCaches.WindowAnswersBySeq | EZ_V2/chain.py:204-206 | Found by sequence number exactly while the height is one of the last N |
| ReceiptCaches.WindowAnswersByRef | EZ_V2/chain.py:208-210 | Found by reference exactly while the height is one of the last N |
| ReceiptCaches.FoundBySeqWasEmitted | EZ_V2/chain.py:204-206 | What is found by sequence number was emitted in the window |
| ReceiptCaches.FoundByRefWasEmitted | EZ_V2/chain.py:208-210 | What is found by reference was emitted in the window |
| ReceiptCaches.ReceiptCache.Add | EZ_V2/chain.py:167-172 | Adds a receipt and prunes as specified |
| ReceiptCaches.ReceiptCache.Prune | EZ_V2/chain.py:174-192 | Drops lowest heights until at most N are left |
| ReceiptCaches.ReceiptCache.AddProofBatch | EZ_V2/chain.py:194-199 | Adds a batch and prunes as specified |
| Ledger.ComputeMerkleRoot | EZ_V2/chain.py:33-47 | The loop over levels computes the recursive root, an odd node paired with itself |
| Ledger.DiffRootDetermines | EZ_V2/chain.py:33-109 | Two entry lists of equal length have the same diff root exactly when they are equal, in spite of the odd-node rule |
| Ledger.LastEntryTwice | EZ_V2/chain.py:33-109 | Across lengths they need not be: an odd list of at least three and the same list with its last entry repeated have one root |
| Ledger.BlockHashNames | EZ_V2/chain.py:111-137 | Two block hashes are equal exactly when the header fields and, entry by entry, the keys and bundle hashes are |
| Ledger.SignEnvelope | EZ_V2/chain.py:62-70 | A signed envelope verifies for exactly the signer's keys |
| Ledger.InKeyOrderListsOnce | EZ_V2/chain.py:276-283 | Every pooled sender is listed once, in key order |
| Nodes.ReachableStoreAnswers | EZ_V2/consensus_store.py:282-319 | In every reachable state of a node the persistent store answers every receipt question as the in-memory window does |
| Nodes.LoadRebuildsIffFresh | EZ_V2/consensus_store.py:350-384 | Loading what a node persisted succeeds exactly when no block it produced packaged a bundle about to expire, and then rebuilds the chain, receipt window included, up to the pool |
| Nodes.ReplaysIffFresh | EZ_V2/consensus_store.py:350-384 | The blocks of a run can be replayed exactly when no produced block packaged a bundle about to expire |
| Nodes.NodeRunKeepsInv | EZ_V2/consensus_store.py:174-280 | Saving after every applied block is never refused and keeps the store in step with the chain |
| ConsensusStores.SaveKeepsStore | EZ_V2/consensus_store.py:174-280 | Saving one more emitted block succeeds and leaves the tables with exactly the window that ends with it |
| ConsensusStores.StoreAnswersLikeWindow | EZ_V2/consensus_store.py:282-319 | After compaction, pruning and materialisation the tables answer as the window |
| ConsensusStores.CompactThenMaterialize | EZ_V2/consensus_store.py:19-50 | Compacting and expanding with one batch gives a receipt with its own proof back |
| StoreRules.CompactDecides | EZ_V2/consensus_store.py:19-37 | A receipt is stored with a reference exactly if the batch, under the receipt's root, reproduces its proof for the sender's key; nothing else of it changes |
| ConsensusStores.DropKeepsRows | EZ_V2/consensus_store.py:248-253 | Pruning keeps exactly the rows of the later blocks |
| StoreObjects.ConsensusStateStore.SaveAppliedBlock | EZ_V2/consensus_store.py:174-280 | One transaction: everything is written, or the tables are unchanged |
| StoreRules.SaveDecides | EZ_V2/consensus_store.py:174-280 | Exactly when a block is saved: its receipts are those of its senders, neither its height nor its hash is stored, and no reference of its receipts is taken |
| StoreRules.UpsertAllDecides | EZ_V2/consensus_store.py:222-247 | The receipts of a block are written together exactly when none of their references is held by a row that the block does not replace; they then stand in the table as given and the other rows are unchanged |
| StoreRules.MaterializeDecides | EZ_V2/consensus_store.py:40-62 | A stored receipt comes back with a proof of its own exactly if it has one, or a batch with its root and key length is found, and is otherwise unchanged |
| StoreObjects.ConsensusStateStore.LoadChainState | EZ_V2/consensus_store.py:350-384 | Replays the stored blocks into a new chain and compares it with the metadata, as specified |
| StoreRules.LoadDecides | EZ_V2/consensus_store.py:350-384 | Exactly when a store is loaded: version and chain id are the configured ones, the stored blocks apply in the order of their heights, and the chain they make has the stored height, hash and root |
| SparseMerkle.VerifyDecides | EZ_V2/smt.py:99-112 | For every proof and value: verification against a tree's root succeeds exactly when the siblings are the tree's and the proof claims what the tree holds, an absence claim ignoring the value |
| SparseMerkle.ProveVerifies | EZ_V2/smt.py:49-54 | The tree's own proof verifies for a stored key with its value, and as absence for a missing key |
| SparseMerkle.RootBindsContents | EZ_V2/smt.py:46-80 | No two trees with different contents share a root |
| SparseMerkle.TreeRefinesNodes | EZ_V2/smt.py:67-96 | The recursive root and proof compute the reference hashes, empty subtrees included |
| SparseMerkle.FoldReachesRoot | EZ_V2/smt.py:104-112 | Folding bits upwards reaches the root exactly from the tree's own hashes |
| SparseMerkle.MaterializeRefinesProve | EZ_V2/smt.py:134-159 | For a listed key the shared proof expands to the tree's own proof exactly when the key is stored |
| SparseMerkle.SparseMerkleTree.Set | EZ_V2/smt.py:39-44 | Stores a value, or refuses a key of the wrong length and changes nothing |
| SparseMerkle.SparseMerkleTree.ProveRecursive | EZ_V2/smt.py:82-96 | The appending walk lists the siblings leaf level first |
| SparseMerkle.SplitItems | EZ_V2/smt.py:56-65 | Filling two dictionaries splits the items by one bit |
| SparseMerkle.CheckProof | EZ_V2/smt.py:99-112 | The iterative fold decides what the recursive one does |
| SparseMerkle.BuildMultiproof | EZ_V2/smt.py:134-146 | Proving key by key and keeping the first hash per prefix builds the shared proof |
| SparseMerkle.MaterializeProof | EZ_V2/smt.py:149-159 | The loop expands the shared proof |
| ClaimSets.ClaimRangesCover | EZ_V2/claim_set.py:9-20 | The merge covers exactly the input's points and passes the claim set's constructor check |
| ClaimSets.ClaimRangesAreCanonical | EZ_V2/claim_set.py:9-20 | Two inputs give the same claim set exactly when they cover the same points |
| ClaimSets.ClaimTestAgreesWithScan | EZ_V2/claim_set.py:36-37 | The intersection test agrees with scanning every range of every transfer |
| ClaimSets.BuildClaimRangeSet | EZ_V2/claim_set.py:9-20 | The loop that overwrites the last range computes the merge |
| ClaimSets.ClaimRangeSetFromSidecar | EZ_V2/claim_set.py:23-27 | Collects and merges the ranges of a bundle |
| Values.ListCheckDecidesAscending | EZ_V2/types.py:37-49 | Being sorted with disjoint neighbours decides that a range list ascends |
| Encoding.EncodingIsPrefixFree | EZ_V2/encoding.py:53-74 | No encoding is a proper prefix of another, and equal encodings have equal values, nested lists and dictionaries included |
| Encoding.CanonicalEncodingIsInjective | EZ_V2/encoding.py:48-50 | Two encodable objects have the same encoding exactly when they normalise to the same value |
| Encoding.CanonicalKeysAscend | EZ_V2/encoding.py:24-74 | In its encoding a normalised dictionary has each key once, in order; the original orders a dataclass's fields only while encoding, which its comparison of dictionaries cannot tell |
| Encoding.LastFieldWins | EZ_V2/encoding.py:24-50 | A normalised dictionary holds, for each key, exactly the normalised content of the last field with that key |
| Encoding.ItemsInOrder | EZ_V2/encoding.py:24-50 | A normalised list holds the normalised elements in their order |
| Encoding.BytesRoundTrip | EZ_V2/encoding.py:14-21 | The shortest big-endian octets of a number read back as the number |
| Der.SignatureRoundTrip | EZ_V2/crypto.py:143-180 | Printing and parsing undo each other exactly while the body's length takes at most 127 octets (section 8.1.3 of ITU-T X.690) |
| Der.OverlongIsRefused | EZ_V2/crypto.py:164-168 | Beyond that, what can still be printed is refused by the parser |
| Der.IntegerRoundTrip | EZ_V2/crypto.py:171-175 | The shortest octets with a clear sign bit read back as the integer (section 8.3 of ITU-T X.690) |
| Der.NormalizeMakesLow | EZ_V2/crypto.py:183-192 | For 0 < s < order, normalising keeps r, yields the smaller of s and order - s, passes the low-s test and is idempotent; before it the test passes exactly when s is the smaller |
| Der.LowTestDecides | EZ_V2/crypto.py:190-192 | For every signature that can be printed, the low-s test answers whether 0 < s and 2 s < order |
| Der.OneTwinIsLow | EZ_V2/crypto.py:190-192 | Of s and order - s exactly one passes |
| Der.ParserAcceptsForm | EZ_V2/crypto.py:143-161 | Over all octet strings: the parser accepts exactly a sequence of two tagged integers, with long lengths allowed, that fill it to the end, and returns those two |
| Der.LowTestOfForm | EZ_V2/crypto.py:190-192 | Over all octet strings of that form the low-s test answers by the second integer alone |
| Der.LowTestNeedsForm | EZ_V2/crypto.py:190-192 | Of any other octet string it makes no answer, but fails |
| Der.NormalizeOutside | EZ_V2/crypto.py:183-187 | For s = 0 or s = order normalising gives s = 0, and above the order it fails |
| WalletStorage.RecordsReadBack | EZ_V2/storage.py:268-304 | Records listed after storing them are the same ones in order exactly when every batch they were compacted against still yields their proofs |
| WalletStorage.WitnessReadBack | EZ_V2/storage.py:110-142 | A history reads back as stored exactly when every batch it was compacted against still yields its proofs |
| WalletStorage.OverwritingLosesProof | EZ_V2/storage.py:557-568 | Overwriting a batch under the same id can lose a proof |
| WalletStorage.GrowthReproduces | EZ_V2/storage.py:557-575 | Batches that are only added lose no proof |
| WalletStorage.AcceptedHasSingleProofs | EZ_V2/validator.py:112-122 | Whatever the validator accepts carries all its proofs itself, so the read-back law applies to it |
| WalletStorage.LocalWalletDB.GcUnusedSidecars | EZ_V2/storage.py:691-695 | Collection leaves exactly the bundles some history or pending bundle refers to, with their counts and contents |
| WalletStorage.LocalWalletDB.RecomputeSidecarRefCounts | EZ_V2/storage.py:661-689 | Recounting gives each row its number of references and adds rows for bundles not stored |
| WalletStorage.LocalWalletDB.ReplaceValueRecordsAndRecount | EZ_V2/storage.py:259-289 | Stores compact records and counts the references of the full ones |
| WalletStorage.LocalWalletDB.ListValueRecords | EZ_V2/storage.py:291-304 | Lists in order of range and id with proofs put back |
| WalletStorage.LocalWalletDB.SaveSidecar | EZ_V2/storage.py:306-325 | Stores a bundle under its hash and keeps its count |
| WalletStorage.CountReferences | EZ_V2/storage.py:661-669 | The two loops count the records and pending bundles that refer to each hash |
| WalletStorage.ReferencedIsNeeded | EZ_V2/storage.py:698-705 | A positive count means that some history or pending bundle names the bundle |
| WalletStorage.NeededIsReferenced | EZ_V2/storage.py:698-705 | Every bundle of a record's history, however deep, is counted |
| WalletStorage.HashesOfAllLayers | EZ_V2/storage.py:698-705 | The bundles a history refers to are those of the units of all its layers |
| WalletStorage.PendingIsReferenced | EZ_V2/storage.py:661-669 | The bundle of every pending context is counted |
| WalletStorage.LocalWalletDB.SaveReceiptProofBatch | EZ_V2/storage.py:557-568 | Stores a batch under its own id, in place of a former one, and leaves the other batches |
| HonestStorage.StoredRecordsReadBack | EZ_V2/storage.py:268-304 | In every honest run with a wallet database that saves the batches receipts arrive with, records stored at any moment with compact proofs are listed at any later moment just as they were stored |
| HonestStorage.BatchesOnlyGrow | EZ_V2/network_host.py:2064-2080 | Along an honest run the saved batches are the chain's own, and none is lost or replaced by a different one |
| HonestStorage.FetchedIsEmitted | EZ_V2/network_host.py:2064-2080 | A receipt that arrives without its proof, expanded from its block's batch, is the receipt the chain emitted |
| HonestStorage.ExpandDecides | EZ_V2/network_host.py:2064-2080 | Exactly when a fetched receipt is expanded: it refers to this batch, under its root, with a key of its length; the batch is saved even when only the key length is wrong |

## Left out

- `EZ_V2/network_host.py` but for expanding a fetched receipt; rounds, votes, pacemaker and sortition: the consensus source they call is not part of this model.
- Transport, threads, OpenSSL subprocesses, PEM files, mnemonics, wall-clock time and uuid generation are foreign calls.
- Keccak and secp256k1: hashes are an injective algebra and signatures a signing law.
- A block's diff root determines its entries only among lists of one length: an odd level pairs its last node with itself. The block hash fixes the length.
- Crash points between two database calls: every store and wallet method is one atomic step.
- JSON of rows: tables hold typed values, and accepted packages stand for their hashes.
- A wallet database shared by several accounts: the tables hold one account's rows.
- Receipts and confirmed units are kept in one row for each sequence number, without the second index by bundle reference; `WalletStorage` models the tables of records, batches and sidecars.
- The order of node lists and dictionaries inside a shared proof: its nodes are a map from prefix to hash.
- Selection.ChoosePlan: claims optimality for the counts of records, splits and checkpoint misses, and for the next three components only where every record is bounded, because unbounded distances do not cancel (`UnboundedTurnsRound`); the tie-break by ranges is computed and not claimed optimal.
- Which of two equal ranges is listed first depends on uuids in the original; here ids come from a counter.
- Conversion of addresses to tree keys, and byte-length checks of keys and hashes: an address is its key, and key lengths are in bits.
- `clear_pending_bundles` rolls back every pending bundle in turn, which adds nothing to rolling back one.
- Materialising a stored receipt against a batch for another tree depth raises in the original; here the receipt stays compact.
- When a save would be refused for two reasons, which one is reported.
- `has_genesis_value`, listing methods and genesis-allocation rows: plain queries.
- `_trim_witness_to_known_checkpoint`: nothing calls it.
- `canonicalize` raises for an object of an unsupported type; objects of such types do not occur here, and strings stand for their UTF-8 bytes.
- `created_at` and `accepted_at` times are stored and never read by the modelled code.
- V1 shims, `EZ_App/`, scripts, launchers and user interfaces.
- A checkpoint replaced under its key keeps its place in the list.
