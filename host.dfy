/** The parts of the CosmWasm host interface the minter contract relies on:
    integer widths, addresses, coins, the message info of a call, storage
    errors, the outgoing messages it builds and the address check of
    `deps.api`. */
module Host {

  datatype Option<+T> = None | Some(value: T)

  datatype Result<+T, +E> = Ok(value: T) | Err(error: E)

  const U32_MAX: nat := 0xFFFF_FFFF
  const U128_MAX: nat := 0xFFFF_FFFF_FFFF_FFFF_FFFF_FFFF_FFFF_FFFF

  /** Rust's `u32`. */
  type U32 = n: nat | n <= U32_MAX

  /** Rust's `u128`, also the range of `Uint128` coin amounts. */
  type U128 = n: nat | n <= U128_MAX

  /** `cosmwasm_std::Addr`: an address held as its text. */
  datatype Addr = Addr(text: string)

  /** A native coin: a denomination and an amount. */
  datatype Coin = Coin(denom: string, amount: U128)

  /** `MessageInfo`: who sent the call and the native coins attached to it. */
  datatype MessageInfo = MessageInfo(sender: Addr, funds: seq<Coin>)

  /** The `StdError` cases the contract can meet: a storage item or map key
      that was never saved (named by the stored type), and a generic error,
      which is what address validation raises. */
  datatype StdError = NotFound(kind: string) | GenericErr(msg: string)

  /** cw721 expiration of an approval. */
  datatype Expiration = AtHeight(height: nat) | AtTime(nanos: nat) | Never

  /** The one cw721 execute message the minter builds. */
  datatype Cw721Msg = Approve(spender: string, tokenId: string, expires: Option<Expiration>)

  /** Outgoing messages: a bank transfer, or a call to another contract with
      attached funds. */
  datatype CosmosMsg =
    | BankSend(toAddress: string, amount: seq<Coin>)
    | WasmExecute(contractAddr: string, msg: Cw721Msg, funds: seq<Coin>)

  /** The chain's address check behind `deps.api.addr_validate`: which inputs
      it accepts and the message it gives for the ones it rejects. */
  datatype Api = Api(isValid: string -> bool, rejection: string -> string)

  /** `addr_validate`: accepts exactly what the chain accepts and returns the
      address with the same text; otherwise a generic error. */
  function AddrValidate(api: Api, input: string): (r: Result<Addr, StdError>)
    ensures r.Ok? <==> api.isValid(input)
    ensures r.Ok? ==> r.value.text == input
    ensures r.Err? ==> r.error == GenericErr(api.rejection(input))
  {
    if api.isValid(input) then Ok(Addr(input)) else Err(GenericErr(api.rejection(input)))
  }
}
