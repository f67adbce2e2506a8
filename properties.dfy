/** Properties of the minter over sequences of execute calls: attempt ids
    are consecutive, the ledger only grows, funds forwarded equal funds
    recorded, token ids never collide; and the worked scenarios, with and
    without the counter saved at instantiation. */
module Properties {
  import opened Host
  import opened Errors
  import opened Msg
  import opened State
  import opened Contract
  import Decimal

  /** One execute call: its message info, its message, and what the
      ownership library answers should it be an ownership update. */
  datatype Call = Call(info: MessageInfo, msg: ExecuteMsg, ownershipError: Option<OwnershipError>)

  /** The results of running the calls one after another, each on the
      storage the previous one left, and the final storage. */
  function Run(s: Storage, api: Api, calls: seq<Call>): (r: (seq<Result<Executed, Failure>>, Storage))
    ensures |r.0| == |calls|
    decreases |calls|
  {
    if calls == [] then ([], s)
    else
      var step := ExecuteTransition(s, api, calls[0].info, calls[0].msg, calls[0].ownershipError);
      var rest := Run(step.post, api, calls[1..]);
      ([step.result] + rest.0, rest.1)
  }

  predicate IsMinted(result: Result<Executed, Failure>) {
    result.Ok? && result.value.Minted?
  }

  /** The attempt ids of the successful mints among the results, in order. */
  function MintedIds(results: seq<Result<Executed, Failure>>): seq<nat> {
    if results == [] then []
    else (if IsMinted(results[0]) then [results[0].value.attempt.id as nat] else []) + MintedIds(results[1..])
  }

  /** The numbers lo, lo + 1, ..., hi - 1. */
  function Range(lo: nat, hi: nat): (r: seq<nat>)
    ensures |r| == if lo <= hi then hi - lo else 0
    ensures forall i :: 0 <= i < |r| ==> r[i] == lo + i
    decreases hi - lo
  {
    if lo >= hi then [] else [lo] + Range(lo + 1, hi)
  }

  /** Starting from a counter c, the successful mints of any call sequence
      get the ids c + 1, c + 2, ... with no gap and no repeat, and the
      counter ends at the last id handed out. */
  lemma {:induction false} RunAllocatesConsecutiveIds(s: Storage, api: Api, calls: seq<Call>)
    requires s.numMintsAttempted.Some?
    ensures Run(s, api, calls).1.numMintsAttempted.Some?
    ensures s.numMintsAttempted.value <= Run(s, api, calls).1.numMintsAttempted.value
    ensures MintedIds(Run(s, api, calls).0) ==
      Range(s.numMintsAttempted.value + 1, Run(s, api, calls).1.numMintsAttempted.value + 1)
    decreases |calls|
  {
    if calls != [] {
      var step := ExecuteTransition(s, api, calls[0].info, calls[0].msg, calls[0].ownershipError);
      var rest := Run(step.post, api, calls[1..]);
      RunAllocatesConsecutiveIds(step.post, api, calls[1..]);
      assert ([step.result] + rest.0)[1..] == rest.0;
      var c: nat := s.numMintsAttempted.value;
      var last: nat := rest.1.numMintsAttempted.value;
      if IsMinted(step.result) {
        assert Range(c + 1, last + 1) == [c + 1] + Range(c + 2, last + 1);
      }
    }
  }

  /** Hence the ids of successful mints strictly increase. */
  lemma MintedIdsIncrease(s: Storage, api: Api, calls: seq<Call>)
    requires s.numMintsAttempted.Some?
    ensures forall i, j :: 0 <= i < j < |MintedIds(Run(s, api, calls).0)| ==>
      MintedIds(Run(s, api, calls).0)[i] < MintedIds(Run(s, api, calls).0)[j]
  {
    RunAllocatesConsecutiveIds(s, api, calls);
  }

  /** Without the counter item no call sequence ever mints, and the counter
      never comes into existence: every mint fails on the counter load. */
  lemma {:induction false} RunWithoutCounterNeverMints(s: Storage, api: Api, calls: seq<Call>)
    requires s.numMintsAttempted.None?
    ensures Run(s, api, calls).1.numMintsAttempted.None?
    ensures MintedIds(Run(s, api, calls).0) == []
    decreases |calls|
  {
    if calls != [] {
      var step := ExecuteTransition(s, api, calls[0].info, calls[0].msg, calls[0].ownershipError);
      var rest := Run(step.post, api, calls[1..]);
      RunWithoutCounterNeverMints(step.post, api, calls[1..]);
      assert ([step.result] + rest.0)[1..] == rest.0;
    }
  }

  /** Any call sequence keeps a consistent ledger consistent and never
      changes or removes an entry once written; it also keeps the whole
      storage invariant: a whole relayer binding, positive quantities. */
  lemma {:induction false} RunKeepsLedger(s: Storage, api: Api, calls: seq<Call>)
    requires LedgerConsistent(s)
    ensures LedgerConsistent(Run(s, api, calls).1)
    ensures Extends(s.mintAttempts, Run(s, api, calls).1.mintAttempts)
    ensures Consistent(s) ==> Consistent(Run(s, api, calls).1)
    decreases |calls|
  {
    if calls != [] {
      var step := ExecuteTransition(s, api, calls[0].info, calls[0].msg, calls[0].ownershipError);
      RunKeepsLedger(step.post, api, calls[1..]);
    }
  }

  /** The amount of a denomination the bank transfers among the messages
      send. */
  function Forwarded(msgs: seq<CosmosMsg>, denom: string): nat {
    if msgs == [] then 0
    else (if msgs[0].BankSend? then CoinTotal(msgs[0].amount, denom) else 0) + Forwarded(msgs[1..], denom)
  }

  function CoinTotal(coins: seq<Coin>, denom: string): nat {
    if coins == [] then 0
    else (if coins[0].denom == denom then coins[0].amount else 0) + CoinTotal(coins[1..], denom)
  }

  /** What a successful mint forwards to the custodian is exactly what it
      records; the approval carries nothing; with anything but one
      supported coin attached nothing is forwarded and 0 is recorded. */
  lemma ForwardedEqualsRecorded(s: Storage, info: MessageInfo, recipient: string, quantity: U32)
    ensures var r := MintTransition(s, info, recipient, quantity).result;
      r.Ok? ==>
        && Forwarded(r.value.built, SUPPORTED_DENOM) == r.value.attempt.funds
        && (!IsSingleSupportedCoin(info.funds) ==> r.value.attempt.funds == 0)
  {
    var r := MintTransition(s, info, recipient, quantity).result;
    if r.Ok? {
      var built := r.value.built;
      var approve := built[|built| - 1];
      assert Forwarded([approve], SUPPORTED_DENOM) == 0;
      if IsSingleSupportedCoin(info.funds) {
        var coins := [Coin(SUPPORTED_DENOM, info.funds[0].amount)];
        assert CoinTotal(coins, SUPPORTED_DENOM) == info.funds[0].amount;
        assert built[1..] == [approve];
      }
    }
  }

  /** After instantiation no call sequence leaves a half-set relayer
      binding or a zero-quantity attempt, so the partial-binding failure of
      a mint is unreachable. */
  lemma NoPartialBindingAfterInstantiate(api: Api, msg: InstantiateMsg, calls: seq<Call>)
    ensures var post := Run(Instantiate(api, msg).post, api, calls).1;
      BindingPaired(post) && QuantitiesPositive(post)
  {
    RunKeepsLedger(Instantiate(api, msg).post, api, calls);
  }

  /** Approvals for two different attempts name two different tokens. */
  lemma ApprovedTokenIdsDistinct(p: Addr, q: Addr, a: MintAttempt, b: MintAttempt)
    requires a.id != b.id
    ensures ApproveMsg(p, a).msg.tokenId != ApproveMsg(q, b).msg.tokenId
  {
    Decimal.DecimalStringInjective(a.id, b.id);
  }

  /** As written: instantiation leaves the counter unsaved, so after a
      successful instantiation and relayer binding a mint of quantity 3
      fails on loading the counter. */
  lemma MintFailsAfterInstantiate(api: Api, info: MessageInfo)
    requires api.isValid("admin") && api.isValid("A") && api.isValid("B")
    ensures var s0 := Instantiate(api, InstantiateMsg("admin"));
      var s1 := ExecuteTransition(s0.post, api, info, SetRelayer("A", "B"), None);
      && s0.result.Ok?
      && s1.result == Ok(RelayerSet)
      && ExecuteTransition(s1.post, api, info, Mint("C", 3), None).result == Err(Returned(Std(NotFound(U32_KIND))))
  {
  }

  /** With the counter saved at 0: bind "A"/"B", mint 3 for "C" paying 100
      usei, then try to mint 0. The first mint is attempt 1 and builds the
      transfer to "B" then the approval of token "1" for "C" at "A"; the
      second fails and leaves the counter at 1. */
  lemma MintScenarioWithCounter(api: Api, sender: Addr)
    requires api.isValid("A") && api.isValid("B")
    ensures var info := MessageInfo(sender, [Coin("usei", 100)]);
      var s1 := ExecuteTransition(Storage(None, None, Some(0), map[]), api, info, SetRelayer("A", "B"), None);
      var s2 := ExecuteTransition(s1.post, api, info, Mint("C", 3), None);
      var s3 := ExecuteTransition(s2.post, api, info, Mint("C", 0), None);
      && s1.result == Ok(RelayerSet)
      && s2.result == Ok(Minted(MintAttempt(1, Addr("C"), 3, 100),
           [BankSend("B", [Coin("usei", 100)]), WasmExecute("A", Approve("C", "1", Some(Never)), [])]))
      && s3.result == Err(Returned(InvalidMintQuantity(0)))
      && s3.post == s2.post && s3.post.numMintsAttempted == Some(1)
  {
    var info := MessageInfo(sender, [Coin("usei", 100)]);
    var s1 := ExecuteTransition(Storage(None, None, Some(0), map[]), api, info, SetRelayer("A", "B"), None);
    var s2 := ExecuteTransition(s1.post, api, info, Mint("C", 3), None);
    assert IsSingleSupportedCoin(info.funds);
    assert Decimal.DecimalString(1) == "1";
    assert s2.result.value.built == [BankSend("B", [Coin("usei", 100)]), WasmExecute("A", Approve("C", "1", Some(Never)), [])];
  }
}
