# cw-minter mint relayer: a Dafny model

This project models the core of the `cw-minter` CosmWasm contract. The
contract coordinates NFT mints through a *relayer*, which is a pair of stored
addresses:

- the **pointer** address: the cw721 contract that will issue the token;
- the **associated** address: the custodian that receives the payment.

A mint request goes through these steps in order:

1. The quantity is checked.
2. Both relayer addresses are loaded.
3. The payment is read from the attached coins. Only a single `usei` coin is
   taken; anything else counts as 0.
4. A mint attempt is recorded under a fresh id from the
   `NUM_MINTS_ATTEMPTED` counter.
5. A bank transfer to the custodian is built, then a cw721 `Approve`
   message for the token whose id is the attempt id.

Modules, one per source file or collaborator:

- `Host`: the CosmWasm values the contract uses: `u32`/`u128` ranges,
  `Addr`, `Coin`, `MessageInfo`, `StdError`, the outgoing messages. It also
  holds `Api`, which stands for the chain's address check.
- `Decimal`: how `to_string` renders an attempt id, and its inverse.
- `Errors`: `ContractError`, plus `Failure`. A `Failure` is either a
  returned error or a Wasm trap.
- `Msg`: the execute and query messages and the response records.
- `State`: the `MintAttempt` record and the four storage items. It has two
  forms of the storage:
  - `Storage`, a value;
  - `ContractStorage`, a class whose fields the handlers update in place.

  `MintAttempt::new` is modelled twice: as the function `AllocateAttempt`
  and as the method `NewMintAttempt`, which is proved against it.
- `Contract`: the entry points. Each storage-writing handler has two forms:
  - a method that updates a `ContractStorage`, mirroring the source step by
    step;
  - a transition function on `Storage`, which the method is proved equal to.

  The transition functions carry the contract's properties. The queries are
  functions that read the storage object.
- `Properties`: what holds over sequences of calls. Attempt ids are
  consecutive. Ledger entries are never rewritten. Funds forwarded equal
  funds recorded. Token ids are distinct. Two worked scenarios.

The source declares checks it never makes. `ContractError` lists
`Unauthorized`, `TooManyDenomsReceived`, `InvalidDenom` and
`RelayerNotConfigured` (error.rs:13-26), but no handler raises them, and the
relayer check at contract.rs:80-82 is commented out. The model follows what
the code does:

- `SetRelayer` has no owner check. Any sender may rebind the relayer.
- `recipient` is a required string. It becomes the minter unvalidated.
- A missing relayer address fails on the storage load with
  `Std(NotFound)`. `RelayerNotConfigured` is never raised.
- Wrong, extra or missing coins are not rejected. They record 0 and build
  no transfer.
  - `TooManyDenomsReceived` and `InvalidDenom` are never raised.
  - A single `usei` coin of amount 0 still builds a transfer.

Two places in the source do not type-check. The model takes their evident
intent:

- The minter is the recipient text taken as an address (contract.rs:94).
- The relayer response carries the stored addresses as `Some`
  (contract.rs:120-121).

## Model

| member | source | states |
|---|---|---|
| `Host.AddrValidate` | cw-minter/src/contract.rs:61-62 | Address validation succeeds exactly for inputs the chain accepts, returns an address with the same text, and otherwise fails with the chain's generic error |
| `Decimal.DecimalString` | cw-minter/src/contract.rs:99 | The token id text of an attempt id is non-empty, all digits, with no leading zero except for 0 itself |
| `Decimal.ParseDecimalString` | cw-minter/src/contract.rs:99 | Reading the decimal text of n back gives n |
| `Decimal.DecimalStringInjective` | cw-minter/src/contract.rs:99 | Different ids render as different token ids |
| `State.AllocateAttempt` | cw-minter/src/state.rs:15-31 | Fails with a `u32` not-found error when the counter was never saved, traps on overflow at `u32::MAX`, and writes nothing on failure. Otherwise the new id is the old counter plus 1 and the counter becomes that id. The entry under the new id is the returned record with the given minter, quantity and funds. Every other entry and both relayer items are unchanged. In a consistent ledger the id is fresh, the ledger stays consistent (ids exactly 1..counter), and no old entry changes |
| `State.ContractStorage.constructor` | cw-minter/src/contract.rs:14-23 | After instantiation none of the four storage items exists, the counter included |
| `State.ContractStorage.WithCounter` | cw-minter/src/state.rs:38 | Corrected instantiation: the counter is saved as 0 and the ledger is empty and consistent |
| `State.ContractStorage.NewMintAttempt` | cw-minter/src/state.rs:15-31 | Changes only the counter and the ledger, exactly as `AllocateAttempt` says, and keeps the ledger consistent |
| `Contract.FundAmount` | cw-minter/src/contract.rs:85-92 | The recorded amount is the coin's amount exactly when one coin of `usei` is attached; every other funds list gives 0 |
| `Contract.FundForwarding` | cw-minter/src/contract.rs:86-91 | A bank transfer is built only for a single `usei` coin: to the associated address, with one `usei` coin of the recorded amount |
| `Contract.ApproveMsg` | cw-minter/src/contract.rs:95-103 | The approval goes to the pointer contract with no funds. Its spender is the attempt's minter, its expiry is `Never`, and its token id is the canonical decimal text of the attempt id, which reads back as that id |
| `Contract.Instantiate` | cw-minter/src/contract.rs:14-23 | Instantiation succeeds exactly when the admin address is valid, and echoes it. It leaves none of the four items stored, the counter included, and that storage satisfies the invariant |
| `Contract.SetRelayerTransition` | cw-minter/src/contract.rs:55-66 | Any sender succeeds exactly when both addresses validate. The pointer is checked first, and its error is reported first. A failure changes nothing. Success overwrites both addresses. The counter and ledger are never touched, the binding is left whole, and the storage invariant is kept |
| `Contract.MintTransition` | cw-minter/src/contract.rs:68-105 | Quantity 0 fails with `InvalidMintQuantity(0)`. A missing relayer address fails with the `Addr` not-found error, and a missing counter with the `u32` one. Success happens exactly when the quantity is at least 1, both addresses and the counter exist, and the counter is below `u32::MAX`. Errors write nothing. A success records attempt (counter + 1, recipient, quantity, fund amount) and changes only the counter and that ledger entry. Its messages are the transfer (if any) followed by the approval. The ledger stays consistent and append-only, and the whole storage invariant is kept |
| `Contract.ExecuteTransition` | cw-minter/src/contract.rs:26-53 | Each execute message goes to its own handler. An ownership update fails with the library's `Ownership` error when the library rejects it, succeeds otherwise, and never touches the four items. Only `SetRelayer` touches the relayer binding. Only a successful mint moves the counter (by exactly one, to the new id) or the ledger. The storage invariant is preserved: ledger ids 1..counter, a whole binding, positive quantities |
| `Contract.QueryRelayer` | cw-minter/src/contract.rs:118-124 | Succeeds exactly when both addresses are stored and returns them. Otherwise it fails with the `Addr` not-found error |
| `Contract.Query` | cw-minter/src/contract.rs:108-116 | The relayer query answers as `QueryRelayer`. `GetMintAttempt` succeeds exactly for stored ids and returns that entry; in a consistent ledger those are the ids 1..counter. Any other id fails with the `MintAttempt` not-found error |
| `Contract.ExecuteSetRelayer` | cw-minter/src/contract.rs:55-66 | Writes only the two relayer items, as `SetRelayerTransition` says. After a success the relayer query returns the new addresses |
| `Contract.ExecuteMint` | cw-minter/src/contract.rs:68-105 | Writes only the counter and the ledger, as `MintTransition` says. After a success, querying the new id returns the new attempt |
| `Contract.Execute` | cw-minter/src/contract.rs:26-43 | Dispatches to the handler methods. Its result and new storage are those of `ExecuteTransition` |
| `Properties.RunAllocatesConsecutiveIds` | cw-minter/src/state.rs:21-29 | From counter c, the successful mints of any call sequence get ids c+1, c+2, ... with no gap and no repeat, and the counter ends at the last id |
| `Properties.MintedIdsIncrease` | cw-minter/src/state.rs:21-22 | The ids of successful mints strictly increase along any call sequence |
| `Properties.RunWithoutCounterNeverMints` | cw-minter/src/state.rs:21-22 | If the counter item was never saved, no call sequence mints anything and the counter never appears |
| `Properties.RunKeepsLedger` | cw-minter/src/state.rs:21-29 | Any call sequence keeps the ledger consistent and never changes or removes a written entry. It also keeps the whole storage invariant |
| `Properties.NoPartialBindingAfterInstantiate` | cw-minter/src/contract.rs:63-64 | From instantiation on, no call sequence leaves one relayer address stored without the other, or records a zero-quantity attempt |
| `Properties.ForwardedEqualsRecorded` | cw-minter/src/contract.rs:85-94 | The `usei` a successful mint forwards equals the funds it records. Without exactly one `usei` coin, it forwards and records 0 |
| `Properties.ApprovedTokenIdsDistinct` | cw-minter/src/contract.rs:94-103 | Approvals for attempts with different ids name different tokens |
| `Properties.MintFailsAfterInstantiate` | cw-minter/src/contract.rs:14-23 | As written: starting from the storage `Instantiate` leaves, after a successful instantiation and relayer binding, a mint of quantity 3 fails on the counter load |
| `Properties.MintScenarioWithCounter` | cw-minter/src/contract.rs:68-105 | With the counter saved at 0, binding "A"/"B" and minting 3 for "C" with 100 usei gives attempt (1, "C", 3, 100). Its messages are a 100 usei transfer to "B", then an approval of token "1" for "C" at "A". A following quantity-0 mint fails and leaves the counter at 1 |

## Findings

| source | as written | input that shows it | evidently intended | confidence | as-written member | corrected member |
|---|---|---|---|---|---|---|
| cw-minter/src/contract.rs:14-23 | `instantiate` saves only the owner. `NUM_MINTS_ATTEMPTED` is never saved, yet `MintAttempt::new` loads it through `update` (state.rs:22), so every mint fails with a not-found error | instantiate; `SetRelayer` with two valid addresses; `Mint` of quantity 3 for "C" | instantiation saves the counter as 0, so the first attempt gets id 1 | high (relies on `Item::update` loading before applying); not executed | `Properties.MintFailsAfterInstantiate` | `State.ContractStorage.WithCounter` |

About the corrected half: the storage that `State.ContractStorage.WithCounter`
produces is the starting point of `Properties.MintScenarioWithCounter`.
`Properties.RunAllocatesConsecutiveIds` then applies to it, starting at 0.

## Left out

- Ownership (the external `cw_ownable` library) is not modelled. This covers
  `initialize_owner`, `update_ownership` and `get_ownership`.
- `Contract.ExecuteTransition`: routes `UpdateOwnership` to the library and
  models nothing of its effect on the owner record. The library's verdict
  is a parameter: it is either an ownership error, which is passed on, or
  success (`OwnershipDelegated`). Either way the four items are unchanged.
- `Contract.Query`: answers the `Ownership` query as
  `OwnershipDelegatedQuery` without the owner record.
- `Contract.Instantiate`: leaves out owner initialisation and its possible
  failure.
- Address validation is a host call. It is the `Api` parameter: which
  strings the chain accepts, and the message it gives for the rest.
- JSON encoding is left out (`to_json_binary`, serialisation inside
  `wasm_execute`, the schema macros). Queries return values, not bytes.
- Messages are not executed. The bank transfer and the cw721 approval run
  on the host and in the cw721 contract, and so does any rollback they
  cause.
- The built messages are never sent. `execute_mint` constructs the
  transfer and the approval, then drops them. Both handlers return an
  empty `Response`. The model returns the constructed list as `built` in
  `Minted`.
- Storage write failures are not modelled. The only load failure modelled
  is a missing item or key.
- `State.AllocateAttempt`: `n + 1` at `u32::MAX` is modelled as a trap,
  i.e. the panic of checked arithmetic. The build profile that decides
  this (Cargo.toml) is not part of this model. With unchecked arithmetic
  the id would wrap to 0 instead.
- The host's guarantees on attached coins are not assumed. These are
  positive amounts and distinct denominations. The model accepts any list.
- `cw-minter/src/lib.rs` only declares modules and repeats the `usei`
  constant.
