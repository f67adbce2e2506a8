/** The contract's storage: the relayer binding (two address items), the
    mint-attempt counter item and the ledger of mint attempts, and the
    allocation of a new ledger entry. */
module State {
  import opened Host
  import opened Errors

  /** One ledger entry: the attempt id, the address credited as minter, the
      requested quantity and the fund amount recorded. */
  datatype MintAttempt = MintAttempt(id: U32, minter: Addr, quantity: U32, funds: U128)

  /** The type names a failed storage load reports. */
  const ADDR_KIND := "cosmwasm_std::addresses::Addr"
  const U32_KIND := "u32"
  const MINT_ATTEMPT_KIND := "cw_minter::state::MintAttempt"

  /** The panic of an overflowing `u32` addition. */
  const ADD_OVERFLOW := "attempt to add with overflow"

  /** The four storage items as a value; an item never saved is `None`. */
  datatype Storage = Storage(
    relayerAssociatedAddr: Option<Addr>,
    relayerPointerAddr: Option<Addr>,
    numMintsAttempted: Option<U32>,
    mintAttempts: map<U32, MintAttempt>)

  /** The outcome of one transition: its result and the storage after it. */
  datatype Step<+T> = Step(result: Result<T, Failure>, post: Storage)

  /** The ledger holds exactly the ids 1 to the counter, each entry under its
      own id; before the counter exists the ledger is empty. */
  ghost predicate LedgerConsistent(s: Storage) {
    match s.numMintsAttempted
    case None => s.mintAttempts == map[]
    case Some(n) =>
      && (forall id: U32 :: id in s.mintAttempts <==> 1 <= id <= n)
      && (forall id | id in s.mintAttempts :: s.mintAttempts[id].id == id)
  }

  /** The relayer binding is whole: both addresses are stored, or neither. */
  predicate BindingPaired(s: Storage) {
    s.relayerAssociatedAddr.Some? <==> s.relayerPointerAddr.Some?
  }

  /** Every recorded attempt asked for at least one token. */
  ghost predicate QuantitiesPositive(s: Storage) {
    forall id | id in s.mintAttempts :: s.mintAttempts[id].quantity >= 1
  }

  /** The storage invariant the contract keeps. */
  ghost predicate Consistent(s: Storage) {
    LedgerConsistent(s) && BindingPaired(s) && QuantitiesPositive(s)
  }

  /** Storage as `instantiate` leaves it: it saves the owner only, so none
      of the four items exists, the counter included. */
  const INSTANTIATED: Storage := Storage(None, None, None, map[])

  /** Every entry of `before` is still in `after`, unchanged. */
  ghost predicate Extends(before: map<U32, MintAttempt>, after: map<U32, MintAttempt>) {
    forall id | id in before :: id in after && after[id] == before[id]
  }

  /** `MintAttempt::new` as a function of storage: bump the counter (which
      must already exist), record the attempt under the new counter value. */
  function AllocateAttempt(s: Storage, minter: Addr, quantity: U32, funds: U128): (r: Step<MintAttempt>)
    ensures r.result.Ok? <==> s.numMintsAttempted.Some? && s.numMintsAttempted.value < U32_MAX
    ensures s.numMintsAttempted.None? ==> r.result == Err(Returned(Std(NotFound(U32_KIND))))
    ensures s.numMintsAttempted == Some(U32_MAX) ==> r.result == Err(Trapped(ADD_OVERFLOW))
    ensures r.result.Err? ==> r.post == s
    ensures r.result.Ok? ==>
      var a := r.result.value;
      && a.id == s.numMintsAttempted.value + 1
      && a.minter == minter && a.quantity == quantity && a.funds == funds
      && r.post.numMintsAttempted == Some(a.id)
      && a.id in r.post.mintAttempts && r.post.mintAttempts[a.id] == a
      && (forall id | id != a.id :: (id in r.post.mintAttempts <==> id in s.mintAttempts))
      && (forall id | id != a.id && id in s.mintAttempts :: r.post.mintAttempts[id] == s.mintAttempts[id])
      && r.post.relayerAssociatedAddr == s.relayerAssociatedAddr
      && r.post.relayerPointerAddr == s.relayerPointerAddr
    ensures LedgerConsistent(s) && r.result.Ok? ==> r.result.value.id !in s.mintAttempts
    ensures LedgerConsistent(s) ==> LedgerConsistent(r.post) && Extends(s.mintAttempts, r.post.mintAttempts)
    ensures QuantitiesPositive(s) && quantity >= 1 ==> QuantitiesPositive(r.post)
  {
    match s.numMintsAttempted
    case None => Step(Err(Returned(Std(NotFound(U32_KIND)))), s)
    case Some(n) =>
      if n == U32_MAX then Step(Err(Trapped(ADD_OVERFLOW)), s)
      else
        var a := MintAttempt(n + 1, minter, quantity, funds);
        Step(Ok(a), s.(numMintsAttempted := Some(n + 1), mintAttempts := s.mintAttempts[n + 1 := a]))
  }

  /** The contract's storage, updated in place by the handlers. */
  class ContractStorage {
    var relayerAssociatedAddr: Option<Addr>
    var relayerPointerAddr: Option<Addr>
    var numMintsAttempted: Option<U32>
    var mintAttempts: map<U32, MintAttempt>

    function Snapshot(): Storage
      reads this
    {
      Storage(relayerAssociatedAddr, relayerPointerAddr, numMintsAttempted, mintAttempts)
    }

    ghost predicate Valid()
      reads this
    {
      Consistent(Snapshot())
    }

    /** Storage as `instantiate` leaves it. */
    constructor ()
      ensures Snapshot() == INSTANTIATED
      ensures Valid()
    {
      relayerAssociatedAddr := None;
      relayerPointerAddr := None;
      numMintsAttempted := None;
      mintAttempts := map[];
    }

    /** Storage as an instantiation that also saves the counter at 0 leaves
        it; with it the first mint attempt gets id 1. */
    constructor WithCounter()
      ensures Snapshot() == Storage(None, None, Some(0), map[])
      ensures Valid()
    {
      relayerAssociatedAddr := None;
      relayerPointerAddr := None;
      numMintsAttempted := Some(0);
      mintAttempts := map[];
    }

    /** `MintAttempt::new`: update the counter to its successor, then save
        the new attempt under that id. Touches only the counter and ledger. */
    method NewMintAttempt(minter: Addr, quantity: U32, funds: U128) returns (r: Result<MintAttempt, Failure>)
      modifies this`numMintsAttempted, this`mintAttempts
      ensures r == AllocateAttempt(old(Snapshot()), minter, quantity, funds).result
      ensures Snapshot() == AllocateAttempt(old(Snapshot()), minter, quantity, funds).post
      ensures old(Valid()) && quantity >= 1 ==> Valid()
    {
      if numMintsAttempted.None? {
        return Err(Returned(Std(NotFound(U32_KIND))));
      }
      var n := numMintsAttempted.value;
      if n == U32_MAX {
        return Err(Trapped(ADD_OVERFLOW));
      }
      var mintAttemptId := n + 1;
      numMintsAttempted := Some(mintAttemptId);
      var mintAttempt := MintAttempt(mintAttemptId, minter, quantity, funds);
      mintAttempts := mintAttempts[mintAttemptId := mintAttempt];
      r := Ok(mintAttempt);
    }
  }
}
