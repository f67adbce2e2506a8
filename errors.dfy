/** The error type of the minter contract, and how an execute call can fail. */
module Errors {
  import opened Host

  /** The error of the external ownership library, kept opaque. */
  datatype OwnershipError = OwnershipError(reason: string)

  /** `ContractError`. `TooManyDenomsReceived`, `InvalidDenom`, `Unauthorized`
      and `RelayerNotConfigured` are declared but no handler raises them. */
  datatype ContractError =
    | Std(std: StdError)
    | Ownership(ownership: OwnershipError)
    | Unauthorized(sender: Addr)
    | TooManyDenomsReceived
    | InvalidDenom
    | InvalidMintQuantity(quantity: U32)
    | RelayerNotConfigured

  /** Why an execute call fails: the handler returned an error, or the Wasm
      code trapped on a panic. Either way the chain discards every write of
      the call. */
  datatype Failure = Returned(error: ContractError) | Trapped(panic: string)
}
