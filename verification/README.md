# Verification of the NCN program and the settlement program

This project models three parts of the repository and proves how they behave over
whole runs.

**The NCN operator set and certificate verifier.** A snapshot account holds 256
operator slots, a cached aggregate of their G1 keys, a generation counter and, per
operator, up to sixteen weighted vault contributions. Operators register, rotate keys
and are removed; delegation cranks upsert stake. A certificate is checked in one pass
over a signer bitmap and the slots, ending in one challenge-combined pairing.

**The settlement program.** Settlement states carry a replay nonce and one commitment
slot. A certified borsh payload moves a state to its next transition; large stories are
staged in buffer accounts that grow in place and are closed after settling.

**The fee schedule.** Two fee slots with activation epochs delay every change by one
epoch.

## How the model is built

Each account or handler that changes state is a class (`Snapshot`, `VaultRegistryAccount`,
`NcnAccounts`, `FeeConfig`, `BufferAccount`, `SettlementAccounts`) whose methods are proved
against functions on values; the results about runs are lemmas about those functions.
A handler that fails leaves the state as it was, because its transaction rolls back.

| file | contents |
|---|---|
| `Prelude.dfy`, `NcnErrors.dfy`, `SettlementErrors.dfy` | machine integers, byte strings, results, error codes |
| `ScalarField.dfy`, `Sums.dfy` | the scalar field, group sums and stake sums |
| `Bls.dfy`, `HashToField.dfy` | pairing checks, their completeness and soundness; encodings, negation, hashing to the curve |
| `Bitmap.dfy` | signer bitmaps |
| `Operator.dfy`, `SnapshotAccount.dfy`, `VaultRegistry.dfy` | the accounts of the operator set |
| `NcnProgram.dfy`, `NcnHandlers.dfy` | the NCN program as a state machine, and its handlers |
| `NcnInvariants.dfy`, `NcnRuns.dfy`, `NcnOutcomes.dfy`, `KeyProofs.dfy`, `StakeLedger.dfy`, `HonestOperators.dfy` | results about its runs |
| `Certificate.dfy`, `CertificateTheorems.dfy`, `StakeDecay.dfy`, `Aggregation.dfy` | the verifier, its meaning, the stake it counts, end-to-end completeness |
| `Fees.dfy` | the delayed fee schedule |
| `LittleEndian.dfy`, `Payload.dfy`, `Producer.dfy` | the borsh payload and its producer |
| `Buffer.dfy`, `BufferAccount.dfy` | staged buffers |
| `Settlement.dfy`, `SettlementHandlers.dfy`, `SettlementRuns.dfy` | the settlement program and results about its runs |
| `SettlementBacking.dfy` | which NCN stands behind what is settled |
| `EndToEnd.dfy` | from a staged story to a settled state |
| `SoleOperator.dfy`, `SoleSettlement.dfy` | runs that exist: a one-operator NCN, its certificates, a settle and a buffer's whole life |

Points of G1 and of the order-r subgroup of G2 are represented by their discrete
logarithms, so the groups are Z_r with r the BN254 group order and the pairing of a and b
is a·b mod r (EIP-196; EIP-197, section "Specification"). Point compression, hash to
curve and the challenge hashes are members of a `Suite`, and every result holds for every
suite that meets `Suite.Lawful`; `HashToField.LawfulSuiteExists` shows that suites meeting
it exist. Only the soundness results, and the exact form of completeness, ask for r to be
prime, as the hypothesis `Prime(R)`.

A settlement world holds the accounts of every NCN beside the settlement program's own, and
one clock. An NCN's accounts change only by `NcnProgram` steps, so each NCN is always in the
state its own program has reached (`SettlementBacking.PlayNcn`); a settle looks the NCN it
names up there. The results about buffers ask one thing of address derivation, of the
operations of the run at hand only: none reaches the buffer in question under another
transition (`SettlementRuns.OpsDistinct`). `SoleSettlement.LifeCycleExists` builds runs that
meet this, with a buffer staged, settled and closed, and `SoleSettlement.PlansExist` shows
that nothing it asks for is contradictory.

## Conditions stated openly

- The cached aggregate equals the plain sum of the live keys after exactly those runs in
  which nobody rotated the key of a removed operator that was the only registration ever
  (`NcnRuns.ApkAgreement`); `HonestOperators.AgreementFails` gives the runs in which it
  goes wrong. The handler does not require the rotating operator to be live.
- The verifier's loop visits indices below the registration count. "Every live index is
  visited" holds at every moment of a run iff each registration takes an index no larger than
  the count (`CertificateTheorems.RunDenseIff`). It fails at once when the first operator takes
  an index above zero, and then no certificate is accepted
  (`SoleOperator.SparseFirstRegistration`).
- Honest signers with enough stake are therefore not always accepted. In every reachable
  state they are iff the cached aggregate is not the identity encoding and the keys the loop
  never visits cancel the drift of the aggregate, or the challenge hash happens to be zero
  (`Aggregation.HonestCertificateAcceptedIff`).
- The clock is part of the program state and only moves forward.
- An operator registers at most once, because its account must not exist yet.
- A removed operator's index is documented not to be used again within the same epoch, but
  nothing remembers a removal. A tombstone stays empty through a stretch of a run iff no
  registration that may go through takes its index (`NcnOutcomes.TombstoneStaysIff`), and
  another operator can take it in the very clock slot of the removal
  (`HonestOperators.SlotReused`).
- The registration count never falls, and a rotation is refused once it has reached 256, also
  for a live operator and whatever the number of operators left
  (`NcnOutcomes.RotationSucceedsIff`, `SoleOperator.RotationLimitReached`).
- A vault entry whose mint is the default key counts as free for the next registration, so
  the slot of a vault is not a stable key for every vault. An entry stays as it is through a
  run iff no step overwrites it (`StakeLedger.VaultStaysIff`), which never happens to a vault
  with a mint of its own (`StakeLedger.VaultsNeverMove`) and can happen otherwise
  (`StakeLedger.DefaultMintVaultDropped`). A vault under the default mint never carries weight
  (`VaultRegistry.WeightNeedsWeighable`), so the stake results hold for all runs.
- A settle whose event discriminant equals an instruction discriminator fails, because the
  program's call to itself then reaches that instruction with too few accounts
  (`Settlement.InstructionEventFails`, exactly `Settlement.EmittedIff`).
- The settlement state records the NCN whose certificates are meant to settle it, but settling
  checks the certificate against the NCN accounts passed in and compares the two nowhere.
  The quorum of another NCN can settle a state (`SoleSettlement.ForeignNcnSettles`). A settle
  is guaranteed to be certified by the state's own NCN iff that is the NCN passed in
  (`SettlementBacking.OwnNcnCertifiesIff`).
- The repository's README.md describes a vote counter and `cast_vote`, which the code no
  longer has.

## Model

| member | source | states |
|---|---|---|
| Bls.PairingMeaning | core/src/constants.rs:80-94 | the pairing with minus the G2 generator asks for one equation between discrete logarithms |
| Bls.CombinedIsDiscrepancy | core/src/g2_point.rs:118-162 | the challenge-combined check holds iff h·x2 − σ + α(x2 − x1) is zero mod r |
| Bls.CombinedComplete | core/src/g2_point.rs:129-146 | a signature by the key matching the G1 aggregate passes under every challenge |
| Bls.HonestCombinedIff | core/src/g2_point.rs:118-162 | for prime r, an honest signature passes against a key iff it is the signers' key or the challenge is zero |
| Bls.TwoChallengesForceValidity | core/src/g2_point.rs:118-162 | for prime r, two distinct passing challenges force both the signature and the key equation |
| Bls.ChallengeSoundness | core/src/g2_point.rs:118-162 | for prime r, all challenges pass iff both equations hold, and otherwise at most one does |
| Bls.AggregateSoundness | core/src/g2_point.rs:118-162 | an accepted aggregate is valid unless its hash challenge is exactly the one value at which it passes |
| Bls.RegistrationSoundness | core/src/g2_point.rs:64-112 | the same for the proof of possession at registration |
| Bls.RotationChecksMeaning | program/src/update_operator_bn128_keys.rs:94-125 | the rotation checks pass iff both keys are one nonzero secret's and the signature is that secret's |
| HashToField.Padded32 | core/src/g1_point.rs:254-265 | left-padded minimal big-endian output always has 32 bytes and the value written |
| HashToField.ReduceModFr | core/src/utils.rs:54-63 | challenges are the hash modulo the group order, unchanged when already below it |
| HashToField.Negate | core/src/g1_point.rs:243-267 | the padding loop keeps x and writes the padded negated y |
| HashToField.NegationLaws | core/src/g1_point.rs:243-267 | negation keeps the curve equation both ways, cancels in the sum and undoes itself for y below the modulus |
| HashToField.NegateTwice | core/src/g1_point.rs:243-267 | on encoded points negating twice gives back the same 64 bytes |
| HashToField.HashIsLeastAccepted | core/src/schemes/sha256_normalized.rs:29-60 | hashing returns a point iff the least counter up to 254 that gives one gives it: hash below five moduli, 32 bytes of its residue decompress to the point |
| HashToField.CheckedHash | core/src/schemes/sha256_normalized.rs:29-60 | checks and signers work with that point, and fail together iff no counter gives one |
| HashToField.CandidatesAreUniform | core/src/schemes/sha256_normalized.rs:17-46 | each reduced x-coordinate is tried for exactly five hash values |
| HashToField.ResiduesAreUniform | core/src/schemes/sha256_normalized.rs:17-24 | the rejection bound is the last multiple of the modulus below 2^256 and each residue has exactly five accepted preimages |
| Bitmap.CreateSignerBitmap | core/src/utils.rs:122-144 | the bitmap has the length the verifier requires and bit i is set iff i is not listed, for any list |
| Bitmap.ClearingOnePosition | core/src/utils.rs:130-140 | clearing one position changes what the verifier reads at that position only |
| Operator.SnapshotVaultOperatorDelegation | core/src/snapshot.rs:659-709 | the crank's upsert, recomputed totals, flags and mark, with every error |
| Operator.SumContributions | core/src/snapshot.rs:689-694 | the totals loop adds both weights of the occupied entries or overflows |
| Operator.UpsertRefinesMap | core/src/snapshot.rs:677-686 | the upsert is a map update on registry slots and keeps the keys distinct |
| Operator.UpsertNeverFull | core/src/snapshot.rs:677-683 | for slots below sixteen the array-full error cannot occur |
| Operator.TotalIsSumOverSlots | core/src/snapshot.rs:688-697 | the running totals are the sums over registry slots of that map |
| SnapshotAccount.Snapshot.constructor | core/src/snapshot.rs:63-98 | a fresh snapshot is empty with the zero aggregate and generation zero |
| SnapshotAccount.Snapshot.FindOperatorSnapshot | core/src/snapshot.rs:321-335 | the search returns the first live slot of the operator |
| SnapshotAccount.Snapshot.BumpGeneration | core/src/snapshot.rs:173-180 | the generation takes the next value or fails at its maximum |
| SnapshotAccount.Snapshot.SetLastSnapshotSlot | core/src/snapshot.rs:158-160 | only the snapshot mark changes |
| SnapshotAccount.Snapshot.AddG1PubkeyToTotalAgg | core/src/snapshot.rs:198-216 | the new aggregate, zero-encoding shortcut included, or the decoding error |
| SnapshotAccount.Snapshot.SubtractG1PubkeyFromTotalAgg | core/src/snapshot.rs:219-233 | the aggregate without the key, or the decoding error |
| SnapshotAccount.Snapshot.UpdateG1OperatorPubkey | core/src/snapshot.rs:242-293 | the rotation for each registration count, with its errors and whole new state |
| SnapshotAccount.Snapshot.AddOperatorSnapshot | core/src/snapshot.rs:338-361 | the operator takes its own slot, count, mark and generation move, or the error says why not |
| SnapshotAccount.Snapshot.RemoveOperatorSnapshot | core/src/snapshot.rs:370-395 | the key leaves the aggregate, the slot becomes a tombstone and is named |
| SnapshotAccount.Snapshot.UpdateOperatorSnapshot | core/src/snapshot.rs:406-412 | one slot is overwritten; slots stay well formed iff the entry carries that index |
| SnapshotAccount.ApkArithmetic | core/src/snapshot.rs:198-233 | on a decodable aggregate both operations succeed iff the key decodes and act on the decoded points |
| SnapshotAccount.LiveKeySumUpdate | core/src/snapshot.rs:377-391 | rewriting one slot moves the plain key sum by the difference of the two points |
| SnapshotAccount.KeyRotatedSlots | core/src/snapshot.rs:254-289 | however the count is handled, a rotation changes at most the found operator's key |
| VaultRegistry.VaultRegistryAccount.RegisterStMint | core/src/vault_registry.rs:202-230 | the mint takes the first free entry, or the error says why not |
| VaultRegistry.VaultRegistryAccount.RegisterVault | core/src/vault_registry.rs:248-269 | a known vault is left alone, a new one takes the first free entry |
| VaultRegistry.VaultRegistryAccount.GetVaultRegistrySlot | core/src/vault_registry.rs:277-282 | the first occupied entry of the vault, or the error |
| VaultRegistry.VaultRegistryAccount.GetVaultWeightBps | core/src/vault_registry.rs:286-300 | the weight of the vault's mint, or which lookup failed |
| VaultRegistry.VaultRegistrationKeeps | core/src/vault_registry.rs:248-269 | a registration moves or overwrites no entry that can carry weight and keeps vaults distinct |
| VaultRegistry.MintRegistrationKeeps | core/src/vault_registry.rs:202-230 | a new mint leaves every other mint's entry and weight, and every vault, as it was |
| VaultRegistry.WeightNeedsWeighable | core/src/vault_registry.rs:286-300 | weights are at most full weight, and zero for a vault under the default mint |
| VaultRegistry.RegisteredVaultIsFound | core/src/vault_registry.rs:248-282 | a new vault is found where it was put, except at the one clock slot that marks empty entries |
| NcnHandlers.NcnAccounts.ProcessRegisterOperator | program/src/register_operator.rs:142-226 | the handler performs the registration transition on the accounts, errors included |
| NcnHandlers.NcnAccounts.ProcessUpdateOperatorKeys | program/src/update_operator_bn128_keys.rs:94-142 | the handler rotates the key in the operator account and in the snapshot |
| NcnHandlers.NcnAccounts.ProcessRemoveOperator | program/src/remove_operator.rs:54-57 | the handler performs the removal transition |
| NcnHandlers.NcnAccounts.ProcessRegisterVault | program/src/register_vault.rs:46-59 | the mint must be supported, then the registry gains the vault |
| NcnHandlers.NcnAccounts.ProcessSnapshotDelegation | program/src/snapshot_vault_operator_delegation.rs:109-233 | the crank clones the entry, changes it, writes it back under its index and moves the mark |
| NcnHandlers.NcnAccounts.WeighDelegation | program/src/snapshot_vault_operator_delegation.rs:180-209 | the delegation, or zero when inactive, scaled by the mint's weight |
| NcnInvariants.WeightedInRange | program/src/snapshot_vault_operator_delegation.rs:203-213 | weighting u64 delegations never overflows, stays below the delegation and keeps next-epoch below current |
| NcnInvariants.RegisteredKeeps | program/src/register_operator.rs:142-226 | registration keeps the operator-set invariant and the aggregate's drift from the plain sum |
| NcnInvariants.RemovedKeeps | core/src/snapshot.rs:370-395 | removal keeps both |
| NcnInvariants.KeysUpdatedKeeps | core/src/snapshot.rs:242-293 | rotation keeps the invariant; with one registration it clears the drift for a live operator and creates one for a removed operator |
| NcnInvariants.CrankedKeeps | program/src/snapshot_vault_operator_delegation.rs:109-233 | a crank keeps the invariant, the drift and the registration count |
| NcnInvariants.CrankErrors | program/src/snapshot_vault_operator_delegation.rs:109-233 | in an invariant state a crank never overflows and never runs out of space |
| NcnInvariants.StepKeeps | core/src/snapshot.rs:198-412 | every instruction keeps the invariant, and only rotating a removed sole operator can add drift |
| NcnRuns.StepGeneration | core/src/snapshot.rs:173-180 | a successful registration, rotation or removal takes the next generation; every other step keeps generation and operator set |
| NcnRuns.GenerationDeterminesOperatorSet | core/src/snapshot.rs:242-412 | in one run equal generations mean equal live indices, operators, keys, aggregate and count |
| NcnRuns.InitializedOnce | program/src/realloc_snapshot.rs:38-65 | the account grows by steps to its full size and is initialized by exactly the call that completes it |
| NcnRuns.RunInvariant | core/src/snapshot.rs:198-412 | every run keeps the invariant; the drift is zero iff no removed sole operator was ever rotated |
| NcnRuns.ApkAgreement | core/src/snapshot.rs:198-293 | after any run the aggregate decodes to the live keys' sum iff no removed sole operator was ever rotated |
| NcnOutcomes.RegistrationSucceedsIff | program/src/register_operator.rs:142-226 | in invariant states a registration succeeds iff its guards hold: new account, active connection, key proof, free index in range, count and generation below their maxima |
| NcnOutcomes.RotationSucceedsIff | core/src/snapshot.rs:242-293 | a rotation succeeds iff the account exists, the key checks pass, the count is below 256 and a next generation exists |
| NcnOutcomes.RemovalSucceedsIff | core/src/snapshot.rs:370-395 | a removal succeeds iff the operator is live and a next generation exists |
| NcnOutcomes.SlotFilledIff | core/src/snapshot.rs:338-361 | a step fills an empty slot iff it is a registration that may go through at its index |
| NcnOutcomes.TombstoneStaysIff | core/src/snapshot.rs:363-367 | a tombstone stays empty through a stretch of a run iff no registration that may go through takes its index |
| KeyProofs.RegistrationProvesKey | program/src/register_operator.rs:126-140 | a successful registration's G2 key has the G1 key's logarithm and its signature is that secret's over operator and key, but for one challenge value |
| KeyProofs.ProvedKeyPasses | program/src/register_operator.rs:126-140 | and such keys and signatures always pass |
| KeyProofs.RotationChecksIff | program/src/update_operator_bn128_keys.rs:94-125 | the rotation checks pass iff the key is proved and its secret nonzero, exactly |
| KeyProofs.RotationProvesKey | program/src/update_operator_bn128_keys.rs:94-142 | a successful rotation has proved its key |
| KeyProofs.RegistrationKeyErrors | program/src/register_operator.rs:126-140 | which error a failing key check of a registration gives |
| KeyProofs.RotationKeyErrors | program/src/update_operator_bn128_keys.rs:94-125 | the same for a rotation |
| KeyProofs.LiveKeysAreProved | program/src/register_operator.rs:126-226 | every live key of every run was brought by a registration or rotation that proved it |
| HonestOperators.HonestRegistrationPasses | core/src/g2_point.rs:64-112 | a proof of possession by the key's own secret passes registration |
| HonestOperators.HonestRotationPasses | program/src/update_operator_bn128_keys.rs:94-125 | the key checks of a rotation to one's own secret pass iff it is not zero |
| HonestOperators.HonestRotationSucceedsIff | core/src/snapshot.rs:242-293 | the rotation itself succeeds iff, besides, the operator has an account, fewer than 256 operators ever registered and a next generation exists |
| HonestOperators.FullCrowdCannotRotate | core/src/snapshot.rs:282-285 | after 256 registrations each operator, live as it is, is refused a rotation to its own key |
| HonestOperators.SlotReused | core/src/snapshot.rs:363-367 | in any run with an empty slot an operator registers there, is removed and another takes the index, in one clock slot |
| HonestOperators.AgreementFails | core/src/snapshot.rs:255-261 | register, remove and rotate one operator first: the aggregate then differs from the live keys' sum |
| StakeLedger.LedgerStepKeeps | program/src/snapshot_vault_operator_delegation.rs:180-229 | every instruction keeps contributions equal to the ledger of latest cranks |
| StakeLedger.CrankRecords | program/src/snapshot_vault_operator_delegation.rs:180-233 | a crank stores delegation times listed weight over 10,000 this epoch, without the cool-down for the next, zero for an inactive connection, with exact floor flags and the clock as mark |
| StakeLedger.WeightAsRegistered | core/src/vault_registry.rs:202-230 | a listed mint carries the weight a registration of the run gave it |
| StakeLedger.StakeIsSumOfLatestCranks | core/src/snapshot.rs:688-697 | in every reachable state an operator's totals are the sums over vaults of what the latest cranks' delegations are worth |
| StakeDecay.MarksAreLastCranks | core/src/snapshot.rs:698-709 | an operator's mark is the clock slot of its latest crank |
| StakeDecay.WalkCountsCranks | core/src/certificate.rs:115-172 | the walk's total and signed stake are the sums, over visited live operators, of their cranks' worth: this epoch's if cranked in it, the next epoch's one epoch later, then nothing |
| StakeDecay.AcceptedQuorumOfCranks | core/src/certificate.rs:175-188 | an accepted certificate is signed by the threshold share of those sums |
| StakeDecay.DecayedStakeRefused | core/src/certificate.rs:123-127 | once every visited operator's latest crank is two epochs old no certificate is accepted |
| StakeLedger.VaultsNeverMove | core/src/vault_registry.rs:274-282 | in every run a vault with a mint of its own keeps its registry slot |
| StakeLedger.VaultStaysIff | core/src/vault_registry.rs:248-269 | any registry entry stays as it is through a run iff no registration overwrites it, which takes the default mint |
| StakeLedger.DefaultMintVaultDropped | core/src/vault_registry.rs:248-269 | of two vaults under the default mint the second takes the first one's slot |
| Certificate.VisitOperator | core/src/certificate.rs:105-172 | the loop body: the slot's fault, or the stake, signed stake and non-signer key it adds |
| Certificate.WalkOperators | core/src/certificate.rs:87-173 | the loop returns the first fault, or total stake, signed stake and non-signer key sum of the visited slots |
| Certificate.CheckPairing | core/src/certificate.rs:190-217 | the last check: decoding errors in order, then the pairing against aggregate minus non-signers |
| Certificate.VerifyCertificate | core/src/certificate.rs:35-220 | the whole check sequence returns exactly the specified outcome, error code included |
| Certificate.VerifyAcceptsIff | core/src/certificate.rs:35-220 | acceptance holds iff length, generation, freshness, per-slot, quorum and pairing conditions hold |
| Certificate.NoFaultIff | core/src/certificate.rs:115-173 | the walk finds no fault iff every visited slot may stand as the bitmap has it and the total fits u128 |
| CertificateTheorems.Apk1IsCoveredSumPlusDrift | core/src/certificate.rs:201-209 | the paired key is the sum of live operators whose bit is set or index is unvisited, plus the aggregate's drift |
| CertificateTheorems.Apk1IsSignersPlusExcess | core/src/certificate.rs:201-209 | in every state it is the signers' key sum plus an excess that does not depend on who signs: unvisited keys and drift |
| CertificateTheorems.Apk1IsSignerSum | core/src/certificate.rs:201-209 | in an agreeing state it is the covered key sum, and in a dense one exactly the signers' |
| CertificateTheorems.AcceptedIsSigned | core/src/certificate.rs:190-217 | for prime r, but for one challenge value, an accepted certificate's aggregate key is the key sum of the operators its bitmap names plus the excess, and its signature is the hash times it; without the excess in agreeing, dense states |
| CertificateTheorems.StepDense | core/src/certificate.rs:94-99 | a registration keeps every live index visited iff its index is at most the count |
| CertificateTheorems.RunDenseIff | core/src/certificate.rs:94-99 | every live index is visited at every moment of a run iff the run registers in index order |
| CertificateTheorems.StaleCertificateRefused | core/src/snapshot.rs:287-290 | a certificate accepted once is refused at every moment after a successful registration, rotation or removal, under any configuration |
| CertificateTheorems.QuorumIntersection | core/src/certificate.rs:175-188 | two accepted certificates share (2t − 1) of the stake, and a signer with stake above one half |
| CertificateTheorems.NoArithmeticErrors | core/src/certificate.rs:71-179 | in reachable states verification never overflows and underflows only when the clock is behind the mark |
| CertificateTheorems.MarksDominated | core/src/certificate.rs:115-118 | once the slot freshness subtraction succeeds no per-operator epoch subtraction underflows |
| CertificateTheorems.SignerStakeFloor | core/src/certificate.rs:123-142 | in reachable states each signer was snapshotted this or last epoch and counts at least the minimum stake |
| Aggregation.AggregateSignaturesAndKeys | cli/src/bls_keys.rs:245-342 | the two reductions give the compressed sums, or nothing if some input is not a point |
| Aggregation.HonestAggregate | cli/src/bls_keys.rs:318-336 | honest submissions aggregate to one signature under the sum of the secrets |
| Aggregation.SignerPointsAreMasked | core/src/certificate.rs:101-103 | the signers listed in any order have the key sum the bitmap selects |
| Aggregation.HonestCertificateAcceptedIff | core/src/certificate.rs:35-220 | in every reachable state, for prime r, the certificate of ready signers with a quorum, in any order, is accepted iff the aggregate is not the identity encoding and the excess is zero, or the challenge is |
| Aggregation.HonestCertificateAccepted | core/src/certificate.rs:35-220 | so in dense agreeing states it always is, for any r |
| SoleOperator.SoleOperatorCertifies | core/src/certificate.rs:35-220 | a program of two dozen instructions reaches a state in which the only operator's certificates are accepted at any threshold |
| SoleOperator.SparseFirstRegistration | core/src/certificate.rs:94-99 | a first registration above index zero breaks density, and then every certificate is refused |
| Fees.FeeConfig.New | core/src/fees.rs:39-65 | both slots start with the same fees, or the error says why not |
| Fees.FeeConfig.GetCurrentFees | core/src/fees.rs:71-86 | the slot in force at an epoch |
| Fees.FeeConfig.SelectUpdatable | core/src/fees.rs:90-105 | the slot that writes go to |
| Fees.FeeConfig.SetFeesToCurrent | core/src/fees.rs:206-218 | the fees in force are copied into the updatable slot |
| Fees.FeeConfig.UpdateFeeConfig | core/src/fees.rs:232-269 | the whole update, slot choices re-made at each write, with its errors |
| Fees.CopyMakesSlotsEqual | core/src/fees.rs:206-218 | after the copy both slots hold the fees in force, so a changed choice of slot is harmless |
| Fees.UpdateIsDelayed | core/src/fees.rs:232-269 | an update leaves its own epoch's fee alone and sets the fee of every later epoch |
| Fees.UpdateSucceedsIff | core/src/fees.rs:232-287 | updates succeed iff the fee leaves room for the protocol fee and a next epoch exists |
| Fees.DelayedFeeSchedule | core/src/fees.rs:71-117 | over any run the fee read for an epoch is the last requested before it and totals stay in (0, 10000] |
| Fees.FeeStableWithinEpoch | core/src/fees.rs:7-15 | calls made during an epoch never change the fee read for it |
| LittleEndian.LeRoundTrip | settlement_core/src/buffer.rs:92-93 | fixed-width little-endian integers read back |
| Payload.DecodeUpdate | settlement_core/src/payload.rs:15-26 | bytes accepted as one update re-encode to themselves followed by the rest |
| Payload.DecodePayload | settlement_core/src/payload.rs:28-41 | accepted bytes are the encoding of the payload returned, with all lengths in range |
| Payload.PayloadRoundTrip | settlement_core/src/payload.rs:167-173 | decoding undoes encoding for every encodable payload |
| Payload.AcceptedIffEncoding | settlement_core/src/payload.rs:28-50 | bytes are accepted iff they encode an encodable payload, and then exactly that one |
| Payload.EncodingInjective | settlement_core/src/payload.rs:41-50 | payloads with one encoding are equal, over all update lists |
| Payload.GoldenPayload | settlement_core/src/payload.rs:111-160 | the wire form of the golden vector, byte for byte |
| Payload.StoryMetaRoundTrip | settlement_core/src/payload.rs:55-65 | story descriptions take 68 bytes and read back |
| Producer.ProducedPayloadValidIff | llm_payload_producer/src/lib.rs:98-120 | a produced payload passes validation iff its buffer holds the story, and yields the new root |
| Producer.StagedStoryValidates | llm_payload_producer/src/lib.rs:98-120 | a story staged in chunks makes the produced payload valid |
| Producer.VerifyFixture | llm_payload_producer/src/lib.rs:180-242 | re-verification succeeds iff bytes, digest, hashes, single Store and events are consistent |
| Producer.ConsistentFixtureValidates | llm_payload_producer/src/lib.rs:214-231 | a consistent fixture validates against a buffer with its story iff every event names that buffer |
| Buffer.TrailerRoundTrip | settlement_core/src/buffer.rs:57-95 | payer and capacity read back from the trailer after any content |
| Buffer.WriteToExisting | settlement_program/src/write_buffer.rs:103-164 | a later write succeeds iff within capacity and one growth step, and writes through to the abstract array |
| Buffer.WriteCreates | settlement_program/src/write_buffer.rs:71-101 | the creating write succeeds iff the capacity is allowed and it fits the initial allocation |
| Buffer.GrowthRefines | settlement_program/src/write_buffer.rs:145-154 | moving the trailer exposes zeros and keeps content, overlapping trailers included |
| Buffer.GrownRefines | settlement_program/src/write_buffer.rs:156-161 | after growth the write fits, so the final bounds check cannot fail |
| Buffer.BufferRefinement | settlement_program/src/write_buffer.rs:71-164 | after any writes the account is the image of an array that decides and performs the same writes on its own: an allocated prefix and the creation trailer |
| Buffer.UploadSucceeds | settlement_program/src/write_buffer.rs:121-164 | chunks of at most 10,240 bytes never fail and reproduce the upload |
| BufferAccount.BufferAccount.ProcessWriteBuffer | settlement_program/src/write_buffer.rs:71-164 | the in-place create, grow, relocate and write give exactly the specified bytes or error |
| BufferAccount.BufferAccount.MoveTrailer | settlement_program/src/write_buffer.rs:145-154 | zeroing the old trailer and writing it at the new end, in this order |
| BufferAccount.BufferAccount.Grow | settlement_program/src/write_buffer.rs:121-154 | reallocation, zero fill and trailer rewrite in place |
| BufferAccount.BufferAccount.WriteBufferTrailer | settlement_core/src/buffer.rs:77-95 | the last 36 bytes become the trailer and nothing else changes |
| Settlement.ValidatedIff | settlement_program/src/settle.rs:110-141 | a diff is valid iff it has exactly one Store and every event passes, and the root is that Store's |
| SettlementHandlers.SettlementAccounts.ProcessInitializeState | settlement_program/src/initialize_state.rs:34-66 | a new state starts with count zero, an existing one is refused |
| SettlementHandlers.SettlementAccounts.ProcessWriteBuffer | settlement_program/src/write_buffer.rs:50-164 | only current or future transitions are staged, and only at their own address |
| SettlementHandlers.SettlementAccounts.VerifyStoryMeta | settlement_program/src/settle.rs:183-233 | the story check with its errors in order |
| SettlementHandlers.SettlementAccounts.ValidateDiff | settlement_program/src/settle.rs:110-141 | the validation loop returns the root or the first error |
| SettlementHandlers.SettlementAccounts.ProcessSettle | settlement_program/src/settle.rs:53-176 | the settle transition: binding, nonce, certificate against the snapshot of the NCN passed in, diff, events in order, root and count |
| SettlementHandlers.SettlementAccounts.CheckBinding | settlement_program/src/settle.rs:53-80 | the payload names this instruction, this state and its next transition, or the first error |
| SettlementHandlers.SettlementAccounts.ApplyDiff | settlement_program/src/settle.rs:98-176 | the whole diff is validated before any event goes out and the one commitment is written, errors in order |
| SettlementHandlers.SettlementAccounts.CheckCertificate | settlement_program/src/verify.rs:28-53 | the inline verification gives the verdict of the named NCN's accounts |
| SettlementHandlers.SettlementAccounts.ProcessCloseBuffer | settlement_program/src/close_buffer.rs:36-79 | closing empties a settled transition's own buffer for its recorded payer only |
| SettlementHandlers.EmitEvents | settlement_program/src/settle.rs:145-162 | the program's calls to itself all succeed iff every event is emittable, and leave the events' records |
| Settlement.DispatchedIff | settlement_program/src/emit_event.rs:21-47 | a call counts as an event iff it fits, names no instruction and the event authority signed |
| Settlement.EmittedIff | settlement_program/src/lib.rs:53-94 | an event goes out iff it fits and its discriminant is no instruction's |
| Settlement.InstructionEventFails | settlement_program/src/lib.rs:53-94 | a valid diff whose event carries an instruction's discriminator does not go out |
| Settlement.EmittedRecords | settlement_core/src/payload.rs:70-77 | the records are exactly the events, in order |
| SettlementRuns.SettleEffect | settlement_program/src/settle.rs:53-176 | a settle moves one state by one transition to its Store's root and touches nothing else |
| SettlementRuns.SettleSucceedsIff | settlement_program/src/settle.rs:53-176 | a settle succeeds iff it is bound to the next transition, certified, carries one Store and events that pass and can go out, and the count is below its maximum |
| SettlementRuns.SettlementRuns | settlement_core/src/state.rs:183-191 | in every run settled indices are 0..n−1, the count is n and the root is the last payload's single Store |
| SettlementRuns.DigestSettlesOnce | settlement_core/src/payload.rs:41-49 | without hash collisions one digest settles at most once across all states |
| SettlementRuns.LoggedAt | settlement_program/src/settle.rs:53-176 | every logged settle is an operation of the run that succeeded when its turn came |
| SettlementRuns.StepBuffer | settlement_program/src/close_buffer.rs:48-79 | each step, seen from one buffer it reaches only as its own: when it may appear, change, freeze and close |
| SettlementRuns.BufferLifeCycle | settlement_program/src/write_buffer.rs:50-62 | a buffer keeps its payer and capacity, is frozen once settled and disappears only after settling |
| SettlementRuns.OnlyPayerCloses | settlement_program/src/close_buffer.rs:56-66 | a vanished buffer was closed, after its transition settled, by the payer it recorded |
| SettlementRuns.NeverRecreated | settlement_program/src/write_buffer.rs:50-62 | a settled transition without a buffer never gets one again |
| SettlementRuns.SettledStoriesStay | settlement_program/src/settle.rs:183-232 | until closed, a settled transition's buffer keeps hashing to its story hash |
| SettlementBacking.PlayNcn | program/src/verify_certificate.rs:53-107 | in every run of the world each NCN's accounts are where its own program leads |
| SettlementBacking.SettledPayloadIsBacked | settlement_program/src/settle.rs:82-96 | every settled payload was signed, over its own digest, by the share the named NCN has configured of what its cranks add up to, within the configured freshness window and generation; under the named operators' key sum if its program was orderly, plus the excess in general |
| SettlementBacking.ParametersAreLastSet | program/src/verify_certificate.rs:70-79 | the threshold and window a settle is held to are those last set for the NCN |
| SettlementBacking.NcnKeysAreProved | program/src/register_operator.rs:126-140 | each live key of each NCN was proved over a digest naming that NCN |
| SettlementBacking.OwnNcnCertifiesIff | settlement_core/src/state.rs:31-33 | a settle is certified by the state's own NCN, whatever the NCN accounts hold, iff that is the NCN passed in |
| SoleSettlement.ForeignNcnSettles | settlement_program/src/settle.rs:82-96 | runs in which another NCN's quorum settles a state whose own NCN was never opened |
| SoleSettlement.LifeCycleExists | settlement_program/src/close_buffer.rs:48-79 | runs that stage, settle and close a buffer meet what the buffer results ask |
| EndToEnd.ProducedTells | llm_payload_producer/src/lib.rs:98-120 | a payload produced for settling is valid, with its events emitted, wherever the buffer holds the story |
| EndToEnd.StagedStorySettles | settlement_program/src/settle.rs:53-176 | after any run: stage a story in chunks, have an NCN's signers sign the payload's digest, aggregate, settle; all succeed and the state moves to the new root |

## Left out

- Command-line RPC, keeper, metrics, logging, key files, generated clients, frontend and scripts: input and output only.
- `core/src/operator_registry.rs` is not compiled into the crate.
- IP address, port, bump, NCN, creation-slot, operator-index and can-vote fields of the accounts: plain stores that no modelled check reads.
- Account loading, owner and signer checks, rent and lamports: guards of an instruction. Address derivation is an arbitrary function; what is asked of it is asked of the operations of a run.
- An address that is at once a settlement state's and a buffer's (a collision of the two derivations) is treated as two accounts.
- NCN configuration and snapshot accounts are opened in one step; the ranges of configuration parameters are not checked.
- Borsh decoding of instruction arguments: an instruction called with too few accounts fails either way.
- SHA-256, keccak, curve syscalls and point compression: arbitrary functions with explicit hypotheses; primality of the group order is a hypothesis.
- Restaking and vault accounts: arbitrary u64 delegations, activity flags and epoch length chosen per instruction.
- Hex, base64 and JSON parts of fixtures, the Qwen payload and its fixture: the same checks on another event.
- Admin setters and config initialization: range checks.
- Host-only G2 addition is modelled on the subgroup; a point outside it makes the sum fail.
- The in-place NCN handlers start from an initialized snapshot; growth and initialization are modelled on values (`NcnProgram.Realloc`).
- `StakeWeights` is a plain u128; its unused `decrement` is left out.
- StakeLedger.VaultsNeverMove: does not promise a fixed slot to a vault under the default mint, because the code does not keep it; `StakeLedger.VaultStaysIff` has the exact condition.
