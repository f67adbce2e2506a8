/** The messages the minter contract accepts and the responses it returns. */
module Msg {
  import opened Host

  datatype InstantiateMsg = InstantiateMsg(admin: string)

  /** The ownership actions the ownership library adds to `ExecuteMsg`. */
  datatype OwnershipAction =
    | TransferOwnership(newOwner: string, expiry: Option<Expiration>)
    | AcceptOwnership
    | RenounceOwnership

  datatype ExecuteMsg =
    | SetRelayer(pointerAddress: string, associatedAddress: string)
    | Mint(recipient: string, quantity: U32)
    | UpdateOwnership(action: OwnershipAction)

  datatype QueryMsg =
    | Relayer
    | GetMintAttempt(attemptId: U32)
    | Ownership

  datatype RelayerResp = RelayerResp(associatedAddress: Option<Addr>, pointerAddress: Option<Addr>)

  datatype AdminResp = AdminResp(admin: Addr)
}
