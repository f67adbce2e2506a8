/** The minter contract's entry points: instantiation, the execute dispatch
    with its two handlers (binding the relayer, minting), and the queries.
    Each handler that writes storage is a method on `ContractStorage`,
    proved against a transition function on `Storage` values. */
module Contract {
  import opened Host
  import opened Errors
  import opened Msg
  import opened State
  import Decimal

  /** The one native denomination a mint accepts as payment. */
  const SUPPORTED_DENOM := "usei"

  /** What a successful execute call produced. `Minted` carries the messages
      `execute_mint` builds; the contract drops them and returns an empty
      response, so neither the transfer nor the approval is ever sent. */
  datatype Executed =
    | RelayerSet
    | Minted(attempt: MintAttempt, built: seq<CosmosMsg>)
    | OwnershipDelegated(action: OwnershipAction)

  /** What a query answers with, before JSON encoding. */
  datatype QueryResponse =
    | RelayerInfo(relayer: RelayerResp)
    | AttemptInfo(attempt: MintAttempt)
    | OwnershipDelegatedQuery

  predicate IsSingleSupportedCoin(funds: seq<Coin>) {
    |funds| == 1 && funds[0].denom == SUPPORTED_DENOM
  }

  /** The amount a mint records: the coin's amount when exactly one coin of
      the supported denomination is attached; every other funds list, the
      empty one, a wrong denomination or several coins, yields 0 and no
      error. */
  function FundAmount(funds: seq<Coin>): (amount: U128)
    ensures IsSingleSupportedCoin(funds) ==> amount == funds[0].amount
    ensures !IsSingleSupportedCoin(funds) ==> amount == 0
  {
    if IsSingleSupportedCoin(funds) then funds[0].amount else 0
  }

  /** The bank transfer `execute_mint` builds: present only for a single
      supported coin, to the associated address, one coin of the supported
      denomination with the recorded amount. */
  function FundForwarding(associated: Addr, funds: seq<Coin>): (msgs: seq<CosmosMsg>)
    ensures |msgs| <= 1
    ensures msgs != [] <==> IsSingleSupportedCoin(funds)
    ensures msgs != [] ==> msgs[0] == BankSend(associated.text, [Coin(SUPPORTED_DENOM, FundAmount(funds))])
  {
    if IsSingleSupportedCoin(funds) then [BankSend(associated.text, [Coin(SUPPORTED_DENOM, funds[0].amount)])] else []
  }

  /** The cw721 `Approve` sent to the pointer contract: the attempt's minter
      as spender, the decimal text of the attempt id as token id (which
      reads back as that id), no expiry, no funds. */
  function ApproveMsg(pointer: Addr, attempt: MintAttempt): (m: CosmosMsg)
    ensures m.WasmExecute? && m.contractAddr == pointer.text && m.funds == []
    ensures m.msg.spender == attempt.minter.text && m.msg.expires == Some(Never)
    ensures m.msg.tokenId == Decimal.DecimalString(attempt.id)
    ensures Decimal.AllDigits(m.msg.tokenId) && Decimal.ParseDecimal(m.msg.tokenId) == attempt.id
  {
    Decimal.ParseDecimalString(attempt.id);
    WasmExecute(pointer.text, Approve(attempt.minter.text, Decimal.DecimalString(attempt.id), Some(Never)), [])
  }

  /** `instantiate`, apart from saving the owner: validates the admin
      address and echoes it. It saves none of the four storage items, so
      the contract starts from `INSTANTIATED`, without the counter. */
  function Instantiate(api: Api, msg: InstantiateMsg): (r: Step<AdminResp>)
    ensures r.result.Ok? <==> api.isValid(msg.admin)
    ensures r.result.Ok? ==> r.result.value.admin == Addr(msg.admin)
    ensures r.result.Err? ==> r.result.error == Returned(Std(GenericErr(api.rejection(msg.admin))))
    ensures r.post == INSTANTIATED && r.post.numMintsAttempted.None? && Consistent(r.post)
  {
    match AddrValidate(api, msg.admin)
    case Err(e) => Step(Err(Returned(Std(e))), INSTANTIATED)
    case Ok(admin) => Step(Ok(AdminResp(admin)), INSTANTIATED)
  }

  /** `execute_set_relayer` on storage values. No caller check: the sender
      does not take part. Both addresses are validated before either is
      saved. */
  function SetRelayerTransition(s: Storage, api: Api, pointerAddress: string, associatedAddress: string): (r: Step<Executed>)
    ensures r.result.Ok? <==> api.isValid(pointerAddress) && api.isValid(associatedAddress)
    ensures !api.isValid(pointerAddress) ==>
      r.result == Err(Returned(Std(GenericErr(api.rejection(pointerAddress)))))
    ensures api.isValid(pointerAddress) && !api.isValid(associatedAddress) ==>
      r.result == Err(Returned(Std(GenericErr(api.rejection(associatedAddress)))))
    ensures r.result.Err? ==> r.post == s
    ensures r.result.Ok? ==>
      && r.result.value == RelayerSet
      && r.post.relayerPointerAddr == Some(Addr(pointerAddress))
      && r.post.relayerAssociatedAddr == Some(Addr(associatedAddress))
    ensures r.post.numMintsAttempted == s.numMintsAttempted && r.post.mintAttempts == s.mintAttempts
    ensures BindingPaired(r.post) || r.post == s
    ensures Consistent(s) ==> Consistent(r.post)
  {
    match AddrValidate(api, pointerAddress)
    case Err(e) => Step(Err(Returned(Std(e))), s)
    case Ok(pointerAddr) =>
      match AddrValidate(api, associatedAddress)
      case Err(e) => Step(Err(Returned(Std(e))), s)
      case Ok(associatedAddr) =>
        Step(Ok(RelayerSet), s.(relayerPointerAddr := Some(pointerAddr), relayerAssociatedAddr := Some(associatedAddr)))
  }

  /** `execute_mint` on storage values: quantity check, loading both
      relayer addresses, fund selection, allocation of the attempt, then
      the bank transfer (if any) followed by the approval. The recipient is
      taken as the minter without validation. */
  function MintTransition(s: Storage, info: MessageInfo, recipient: string, quantity: U32): (r: Step<Executed>)
    ensures quantity == 0 ==> r.result == Err(Returned(InvalidMintQuantity(0)))
    ensures quantity >= 1 && (s.relayerAssociatedAddr.None? || s.relayerPointerAddr.None?) ==>
      r.result == Err(Returned(Std(NotFound(ADDR_KIND))))
    ensures quantity >= 1 && s.relayerAssociatedAddr.Some? && s.relayerPointerAddr.Some? && s.numMintsAttempted.None? ==>
      r.result == Err(Returned(Std(NotFound(U32_KIND))))
    ensures r.result.Ok? <==>
      && quantity >= 1
      && s.relayerAssociatedAddr.Some? && s.relayerPointerAddr.Some?
      && s.numMintsAttempted.Some? && s.numMintsAttempted.value < U32_MAX
    ensures r.result.Err? ==> r.post == s
    ensures r.result.Ok? ==>
      && r.result.value.Minted?
      && var a := r.result.value.attempt;
      && a == MintAttempt(s.numMintsAttempted.value + 1, Addr(recipient), quantity, FundAmount(info.funds))
      && r.post == s.(numMintsAttempted := Some(a.id), mintAttempts := s.mintAttempts[a.id := a])
      && r.result.value.built ==
           FundForwarding(s.relayerAssociatedAddr.value, info.funds) + [ApproveMsg(s.relayerPointerAddr.value, a)]
    ensures LedgerConsistent(s) ==> LedgerConsistent(r.post) && Extends(s.mintAttempts, r.post.mintAttempts)
    ensures Consistent(s) ==> Consistent(r.post)
  {
    if quantity < 1 then Step(Err(Returned(InvalidMintQuantity(quantity))), s)
    else if s.relayerAssociatedAddr.None? || s.relayerPointerAddr.None? then Step(Err(Returned(Std(NotFound(ADDR_KIND)))), s)
    else
      var forwarding := FundForwarding(s.relayerAssociatedAddr.value, info.funds);
      var allocation := AllocateAttempt(s, Addr(recipient), quantity, FundAmount(info.funds));
      match allocation.result
      case Err(e) => Step(Err(e), s)
      case Ok(attempt) =>
        Step(Ok(Minted(attempt, forwarding + [ApproveMsg(s.relayerPointerAddr.value, attempt)])), allocation.post)
  }

  /** `execute`: each message goes to its own handler. Binding the relayer
      never touches the counter or ledger, minting never touches the
      binding, and an ownership update touches none of the four items.
      The ownership library decides that update (it rejects a sender who
      is not the owner); `ownershipError` is its answer for this call. */
  function ExecuteTransition(s: Storage, api: Api, info: MessageInfo, msg: ExecuteMsg, ownershipError: Option<OwnershipError>)
    : (r: Step<Executed>)
    ensures msg.SetRelayer? ==> r == SetRelayerTransition(s, api, msg.pointerAddress, msg.associatedAddress)
    ensures msg.Mint? ==> r == MintTransition(s, info, msg.recipient, msg.quantity)
    ensures msg.UpdateOwnership? ==> r.post == s
    ensures msg.UpdateOwnership? ==>
      r.result == if ownershipError.Some? then Err(Returned(ContractError.Ownership(ownershipError.value)))
                  else Ok(OwnershipDelegated(msg.action))
    ensures !msg.SetRelayer? ==>
      r.post.relayerAssociatedAddr == s.relayerAssociatedAddr && r.post.relayerPointerAddr == s.relayerPointerAddr
    ensures r.result.Ok? && r.result.value.Minted? ==>
      && msg.Mint?
      && s.numMintsAttempted.Some?
      && r.result.value.attempt.id == s.numMintsAttempted.value + 1
      && r.post.numMintsAttempted == Some(r.result.value.attempt.id)
    ensures !(r.result.Ok? && r.result.value.Minted?) ==>
      r.post.numMintsAttempted == s.numMintsAttempted && r.post.mintAttempts == s.mintAttempts
    ensures LedgerConsistent(s) ==> LedgerConsistent(r.post) && Extends(s.mintAttempts, r.post.mintAttempts)
    ensures Consistent(s) ==> Consistent(r.post)
  {
    match msg
    case SetRelayer(pointerAddress, associatedAddress) => SetRelayerTransition(s, api, pointerAddress, associatedAddress)
    case Mint(recipient, quantity) => MintTransition(s, info, recipient, quantity)
    case UpdateOwnership(action) =>
      match ownershipError
      case Some(e) => Step(Err(Returned(ContractError.Ownership(e))), s)
      case None => Step(Ok(OwnershipDelegated(action)), s)
  }

  /** `query_relayer`: both addresses, or the failed load of whichever is
      missing. */
  function QueryRelayer(store: ContractStorage): (r: Result<RelayerResp, ContractError>)
    reads store
    ensures r.Ok? <==> store.relayerPointerAddr.Some? && store.relayerAssociatedAddr.Some?
    ensures r.Ok? ==> r.value == RelayerResp(store.relayerAssociatedAddr, store.relayerPointerAddr)
    ensures r.Err? ==> r.error == Std(NotFound(ADDR_KIND))
  {
    if store.relayerPointerAddr.None? || store.relayerAssociatedAddr.None? then Err(Std(NotFound(ADDR_KIND)))
    else Ok(RelayerResp(store.relayerAssociatedAddr, store.relayerPointerAddr))
  }

  /** `query`: the relayer binding, or the ledger entry under an id, which
      fails for an id never stored; in a consistent ledger those are 0 and
      the ids above the counter. */
  function Query(store: ContractStorage, msg: QueryMsg): (r: Result<QueryResponse, ContractError>)
    reads store
    ensures msg.Relayer? ==>
      (r.Ok? <==> QueryRelayer(store).Ok?) &&
      (r.Ok? ==> r.value == RelayerInfo(QueryRelayer(store).value)) &&
      (r.Err? ==> r.error == QueryRelayer(store).error)
    ensures msg.GetMintAttempt? ==>
      && (r.Ok? <==> msg.attemptId in store.mintAttempts)
      && (r.Ok? ==> r.value == AttemptInfo(store.mintAttempts[msg.attemptId]))
      && (r.Err? ==> r.error == Std(NotFound(MINT_ATTEMPT_KIND)))
    ensures msg.GetMintAttempt? && store.Valid() ==>
      (r.Ok? <==> store.numMintsAttempted.Some? && 1 <= msg.attemptId <= store.numMintsAttempted.value)
    ensures msg.GetMintAttempt? && store.Valid() && r.Ok? ==> r.value.attempt.id == msg.attemptId
  {
    match msg
    case Relayer =>
      (match QueryRelayer(store)
       case Err(e) => Err(e)
       case Ok(resp) => Ok(RelayerInfo(resp)))
    case GetMintAttempt(attemptId) =>
      if attemptId in store.mintAttempts then Ok(AttemptInfo(store.mintAttempts[attemptId]))
      else Err(Std(NotFound(MINT_ATTEMPT_KIND)))
    case Ownership => Ok(OwnershipDelegatedQuery)
  }

  /** `execute_set_relayer`: validate both addresses, then save the pointer
      and the associated address. Any sender may call it. */
  method ExecuteSetRelayer(store: ContractStorage, api: Api, info: MessageInfo, pointerAddress: string, associatedAddress: string)
    returns (r: Result<Executed, Failure>)
    modifies store`relayerPointerAddr, store`relayerAssociatedAddr
    ensures r == SetRelayerTransition(old(store.Snapshot()), api, pointerAddress, associatedAddress).result
    ensures store.Snapshot() == SetRelayerTransition(old(store.Snapshot()), api, pointerAddress, associatedAddress).post
    ensures r.Ok? ==> QueryRelayer(store) == Ok(RelayerResp(Some(Addr(associatedAddress)), Some(Addr(pointerAddress))))
    ensures old(store.Valid()) ==> store.Valid()
  {
    var pointerAddr := AddrValidate(api, pointerAddress);
    if pointerAddr.Err? {
      return Err(Returned(Std(pointerAddr.error)));
    }
    var associatedAddr := AddrValidate(api, associatedAddress);
    if associatedAddr.Err? {
      return Err(Returned(Std(associatedAddr.error)));
    }
    store.relayerPointerAddr := Some(pointerAddr.value);
    store.relayerAssociatedAddr := Some(associatedAddr.value);
    r := Ok(RelayerSet);
  }

  /** `execute_mint`: check the quantity, load both relayer addresses,
      pick the fund amount (building the transfer when one supported coin
      is attached), record the attempt, build the approval. */
  method ExecuteMint(store: ContractStorage, info: MessageInfo, recipient: string, quantity: U32)
    returns (r: Result<Executed, Failure>)
    modifies store`numMintsAttempted, store`mintAttempts
    ensures r == MintTransition(old(store.Snapshot()), info, recipient, quantity).result
    ensures store.Snapshot() == MintTransition(old(store.Snapshot()), info, recipient, quantity).post
    ensures r.Ok? ==> Query(store, GetMintAttempt(r.value.attempt.id)) == Ok(AttemptInfo(r.value.attempt))
    ensures old(store.Valid()) ==> store.Valid()
  {
    if quantity < 1 {
      return Err(Returned(InvalidMintQuantity(quantity)));
    }
    if store.relayerAssociatedAddr.None? {
      return Err(Returned(Std(NotFound(ADDR_KIND))));
    }
    var relayerAssociatedAddr := store.relayerAssociatedAddr.value;
    if store.relayerPointerAddr.None? {
      return Err(Returned(Std(NotFound(ADDR_KIND))));
    }
    var relayerPointerAddr := store.relayerPointerAddr.value;

    var mintFundAmount: U128 := 0;
    var built: seq<CosmosMsg> := [];
    if |info.funds| == 1 && info.funds[0].denom == SUPPORTED_DENOM {
      mintFundAmount := info.funds[0].amount;
      built := [BankSend(relayerAssociatedAddr.text, [Coin(SUPPORTED_DENOM, mintFundAmount)])];
    }

    var allocation := store.NewMintAttempt(Addr(recipient), quantity, mintFundAmount);
    if allocation.Err? {
      return Err(allocation.error);
    }
    var mintAttempt := allocation.value;
    built := built + [ApproveMsg(relayerPointerAddr, mintAttempt)];
    r := Ok(Minted(mintAttempt, built));
  }

  /** `execute`: dispatch on the message to its handler; `ownershipError`
      is the ownership library's answer to an ownership update. */
  method Execute(store: ContractStorage, api: Api, info: MessageInfo, msg: ExecuteMsg, ownershipError: Option<OwnershipError>)
    returns (r: Result<Executed, Failure>)
    modifies store
    ensures r == ExecuteTransition(old(store.Snapshot()), api, info, msg, ownershipError).result
    ensures store.Snapshot() == ExecuteTransition(old(store.Snapshot()), api, info, msg, ownershipError).post
    ensures old(store.Valid()) ==> store.Valid()
  {
    match msg
    case SetRelayer(pointerAddress, associatedAddress) =>
      r := ExecuteSetRelayer(store, api, info, pointerAddress, associatedAddress);
    case Mint(recipient, quantity) =>
      r := ExecuteMint(store, info, recipient, quantity);
    case UpdateOwnership(action) =>
      if ownershipError.Some? {
        r := Err(Returned(ContractError.Ownership(ownershipError.value)));
      } else {
        r := Ok(OwnershipDelegated(action));
      }
  }
}
