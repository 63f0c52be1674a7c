/** Errors of the settlement program, and those it passes on. */
module SettlementErrors {
  import opened NcnErrors

  datatype SettlementError =
    | InvalidTransitionIndex
    | DigestMismatch
    | InvalidStatePda
    | MissingStore
    | MultipleStore
    | BufferHashMismatch
    | EventTooLarge
    | MissingBufferAccount
    | BufferKeyMismatch
    | InvalidBufferBounds
    | BufferNotSettled
    | InvalidBufferPayer
    | MalformedStoryMeta
    | ArithmeticOverflow
    | InvalidAccountOwner
    | AccountAlreadyInitialized
    | InvalidRealloc
    | SerializationError
    | EventAuthorityNotSigner
    | InvalidInstructionData
    | NotEnoughAccountKeys
    | SelfCpiFailed(cause: SettlementError)
    | CertificateRejected(reason: NcnError)
    | NcnFailed(reason: NcnError)
}
