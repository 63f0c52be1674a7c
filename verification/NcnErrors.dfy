/** Errors of the NCN program. */
module NcnErrors {
  datatype NcnError =
    | DenominatorIsZero
    | ArithmeticOverflow
    | ArithmeticUnderflow
    | InvalidInputLength
    | SnapshotGenerationMismatch
    | VotingNotValid
    | OperatorIsNotInSnapshot
    | OperatorSnapshotOutdated
    | OperatorSnapshotIsNotActive
    | OperatorHasNoMinimumStake
    | OperatorNcnConnectionNotActive
    | InsufficientStakeBps
    | NoOperatorsRegistered
    | InvalidOperatorCount
    | InvalidG1Pubkey
    | G1PointDecompressionError
    | G2PointDecompressionError
    | AltBN128AddError
    | AltBN128PairingError
    | HashToCurveError
    | BlsVerificationError
    | SignatureVerificationFailed
    | TooManyVaultOperatorDelegations
    | DuplicateVaultOperatorDelegation
    | VaultNotInRegistry
    | VaultRegistryListFull
    | MintEntryNotFound
    | MintInTable
    | MintNotSupported
    | InvalidWeightBps
    | AccountAlreadyExists
    | AccountNotFound
    | SnapshotNotInitialized
    | DefaultNcnWallet
    | FeeCapExceeded
    | TotalFeesCannotBeZero
    | FeeNotActive
}
