/**
 * The pure decisions inside the test helper commands: the defaults of the
 * incentive-creation flow and the incentive key it produces, the stopping test
 * of the tick-moving flow, and the top-up and approval decisions of the ERC20 helper.
 */
module HelperCommands {
  import opened Wrappers
  import opened Actors
  import opened TokenSort

  /** The key the staker identifies an incentive by. */
  datatype IncentiveKey = IncentiveKey(rewardToken: string, pool: string, startTime: int, endTime: int, refundee: string)

  /** The arguments of `createIncentiveFlow`; an absent field is None. */
  datatype CreateIncentiveArgs = CreateIncentiveArgs(
    rewardToken: Token, totalReward: int, poolAddress: string,
    startTime: int, endTime: Option<int>, refundee: Option<string>)

  /** What `createIncentiveFlow` returns and the other flows take back. */
  datatype CreateIncentiveResult = CreateIncentiveResult(
    poolAddress: string, totalReward: int, rewardToken: Token,
    startTime: int, endTime: int, refundee: string)

  /** The `createIncentive(key, totalReward)` call the flow sends to the staker. */
  datatype CreateIncentiveCall = CreateIncentiveCall(key: IncentiveKey, reward: int)

  datatype CreateIncentivePlan = CreateIncentivePlan(call: CreateIncentiveCall, result: CreateIncentiveResult)

  const DefaultIncentiveDuration: int := 2000

  /** `params.endTime || startTime + 2000`: an absent or zero end time is replaced. */
  function EndTimeOrDefault(startTime: int, endTime: Option<int>): (e: int)
    ensures endTime.Some? && endTime.value != 0 ==> e == endTime.value
    ensures endTime.None? || endTime == Some(0) ==> e == startTime + DefaultIncentiveDuration
  {
    if endTime.Some? && endTime.value != 0 then endTime.value else startTime + DefaultIncentiveDuration
  }

  /** `params.refundee || incentiveCreator.address`: an absent or empty refundee is replaced. */
  function RefundeeOrDefault(refundee: Option<string>, creator: Wallet): (a: string)
    ensures refundee.Some? && refundee.value != "" ==> a == refundee.value
    ensures refundee.None? || refundee == Some("") ==> a == creator.address
  {
    if refundee.Some? && refundee.value != "" then refundee.value else creator.address
  }

  /**
   * The pure part of `createIncentiveFlow`: it looks up the incentive creator
   * (which throws without an eleventh wallet), then sends and returns the same
   * defaulted end time and refundee.
   */
  function PlanCreateIncentive(actors: ActorFixture, args: CreateIncentiveArgs): (r: Result<CreateIncentivePlan, ActorError>)
    ensures r.Failure? <==> |actors.wallets| <= 10
    ensures r.Failure? ==> r.error == AccountNotLoaded(10)
    ensures r.Success? ==>
      var creator := actors.wallets[10];
      var key := r.value.call.key;
      && key == IncentiveKey(args.rewardToken.address, args.poolAddress, args.startTime,
                             EndTimeOrDefault(args.startTime, args.endTime),
                             RefundeeOrDefault(args.refundee, creator))
      && r.value.call.reward == args.totalReward
      && r.value.result.endTime == key.endTime
      && r.value.result.refundee == key.refundee
      && r.value.result.startTime == args.startTime
      && r.value.result.poolAddress == args.poolAddress
      && r.value.result.rewardToken == args.rewardToken
      && r.value.result.totalReward == args.totalReward
  {
    match ActorFor(actors, IncentiveCreator)
    case Failure(e) => Failure(e)
    case Success(creator) =>
      var endTime := EndTimeOrDefault(args.startTime, args.endTime);
      var refundee := RefundeeOrDefault(args.refundee, creator);
      var call := CreateIncentiveCall(
        IncentiveKey(args.rewardToken.address, args.poolAddress, args.startTime, endTime, refundee),
        args.totalReward);
      var result := CreateIncentiveResult(
        args.poolAddress, args.totalReward, args.rewardToken, args.startTime, endTime, refundee);
      Success(CreateIncentivePlan(call, result))
  }

  /**
   * `incentiveResultToStakeAdapter`: the incentive key of a creation result; the
   * pool address becomes the pool, the reward token its address, and the total
   * reward is dropped.
   */
  function IncentiveResultToStakeAdapter(result: CreateIncentiveResult): (key: IncentiveKey)
    ensures key.pool == result.poolAddress && key.rewardToken == result.rewardToken.address
    ensures key.startTime == result.startTime && key.endTime == result.endTime
    ensures key.refundee == result.refundee
  {
    IncentiveKey(result.rewardToken.address, result.poolAddress, result.startTime, result.endTime, result.refundee)
  }

  /** Staking with a creation result uses exactly the key the incentive was created with. */
  lemma AdapterRecoversCreatedKey(actors: ActorFixture, args: CreateIncentiveArgs)
    requires PlanCreateIncentive(actors, args).Success?
    ensures var plan := PlanCreateIncentive(actors, args).value;
      IncentiveResultToStakeAdapter(plan.result) == plan.call.key
  {
  }

  /** Results that differ only in total reward give the same key. */
  lemma AdapterIgnoresTotalReward(result: CreateIncentiveResult, reward: int)
    ensures IncentiveResultToStakeAdapter(result.(totalReward := reward)) == IncentiveResultToStakeAdapter(result)
  {
  }

  datatype Direction = Up | Down

  /**
   * `isDone` of `makeTickGoFlow`: done at once without a (non-zero) target; not
   * done while the tick is undefined or 0; otherwise done once the tick is
   * strictly past the target in the chosen direction.
   */
  function IsDone(desiredValue: Option<int>, direction: Direction, tick: Option<int>): (done: bool)
    ensures desiredValue.None? || desiredValue == Some(0) ==> done
    ensures desiredValue.Some? && desiredValue.value != 0 && (tick.None? || tick == Some(0)) ==> !done
    ensures desiredValue.Some? && desiredValue.value != 0 && tick.Some? && tick.value != 0 ==>
      (done <==> if direction == Up then tick.value > desiredValue.value else tick.value < desiredValue.value)
  {
    if desiredValue.None? || desiredValue.value == 0 then true
    else if tick.None? || tick.value == 0 then false
    else if direction == Up then tick.value > desiredValue.value
    else tick.value < desiredValue.value
  }

  /** A tick of exactly 0 never stops the loop for a non-zero target, even one 0 has passed. */
  lemma ZeroTickNeverDone()
    ensures !IsDone(Some(-10), Up, Some(0))
    ensures !IsDone(Some(10), Down, Some(0))
    ensures IsDone(Some(-10), Up, Some(1))
  {
  }

  /** Moving further in the chosen direction keeps the loop done, unless the tick lands on 0. */
  lemma IsDoneMonotone(desiredValue: Option<int>, direction: Direction, tick: int, further: int)
    requires IsDone(desiredValue, direction, Some(tick))
    requires further != 0
    requires if direction == Up then further >= tick else further <= tick
    ensures IsDone(desiredValue, direction, Some(further))
  {
  }

  /** An ERC20 action the helper sends. */
  datatype Action =
    | Transfer(token: Token, to: string, amount: int)
    | Approve(token: Token, owner: string, spender: string, amount: int)

  /** What a token contract holds for the actor: the actor's balance and the actor's allowances by spender. */
  datatype Account = Account(balance: int, allowances: map<string, int>)

  /** `allowance(owner, spender)`: zero when never approved. */
  function AllowanceOf(account: Account, spender: string): (a: int)
    ensures spender !in account.allowances ==> a == 0
    ensures spender in account.allowances ==> a == account.allowances[spender]
  {
    if spender in account.allowances then account.allowances[spender] else 0
  }

  /**
   * `ensureBalance`: the amount to transfer to the actor, present only when the
   * current balance is below the target, and then exactly the shortfall.
   */
  function TopUpAmount(currentBalance: int, balance: int): (amount: Option<int>)
    ensures amount.Some? <==> currentBalance < balance
    ensures amount.Some? ==> amount.value > 0 && currentBalance + amount.value == balance
  {
    if currentBalance < balance then Some(balance - currentBalance) else None
  }

  /**
   * `ensureApproval`: approve the spender for `balance` exactly when the actor's
   * allowance to ITSELF is below `balance`; the spender's own allowance is not consulted.
   */
  function NeedsApproval(account: Account, owner: string, balance: int): (approve: bool)
    ensures approve <==> AllowanceOf(account, owner) < balance
  {
    AllowanceOf(account, owner) < balance
  }

  /** `if (spender)`: an absent spender and the empty string are both falsy. */
  predicate SpenderGiven(spender: Option<string>): (given: bool)
    ensures given <==> spender != None && spender != Some("")
  {
    spender.Some? && spender.value != ""
  }

  /** `ensureBalance` on one token: the transfer it sends, if any, and the account afterwards. */
  function EnsureBalance(actor: Wallet, token: Token, balance: int, account: Account): (r: (seq<Action>, Account))
    ensures r.1.balance >= balance && r.1.balance >= account.balance
    ensures r.1 == account.(balance := if account.balance < balance then balance else account.balance)
    ensures r.0 == if account.balance < balance then [Transfer(token, actor.address, balance - account.balance)] else []
  {
    match TopUpAmount(account.balance, balance)
    case Some(amount) => ([Transfer(token, actor.address, amount)], account.(balance := account.balance + amount))
    case None => ([], account)
  }

  /** `ensureApproval` on one token: the approval it sends, if any, and the account afterwards. */
  function EnsureApproval(actor: Wallet, token: Token, balance: int, spender: string, account: Account)
    : (r: (seq<Action>, Account))
    ensures r.1.balance == account.balance
    ensures NeedsApproval(account, actor.address, balance) ==>
      r.0 == [Approve(token, actor.address, spender, balance)] && AllowanceOf(r.1, spender) == balance
    ensures forall other :: other != spender ==> AllowanceOf(r.1, other) == AllowanceOf(account, other)
    ensures !NeedsApproval(account, actor.address, balance) ==> r == ([], account)
  {
    if NeedsApproval(account, actor.address, balance) then
      ([Approve(token, actor.address, spender, balance)], account.(allowances := account.allowances[spender := balance]))
    else ([], account)
  }

  /** One token of `ensureBalancesAndApprovals`: the balance step, then the approval step if a spender is given. */
  function TokenStep(actor: Wallet, token: Token, balance: int, spender: Option<string>, account: Account)
    : (r: (seq<Action>, Account))
    ensures r.1.balance >= balance && r.1.balance >= account.balance
    ensures !SpenderGiven(spender) ==> r == EnsureBalance(actor, token, balance, account)
    ensures SpenderGiven(spender) ==>
      var topped := EnsureBalance(actor, token, balance, account);
      var approved := EnsureApproval(actor, token, balance, spender.value, topped.1);
      r == (topped.0 + approved.0, approved.1)
    ensures SpenderGiven(spender) ==>
      AllowanceOf(r.1, actor.address) >= balance || AllowanceOf(r.1, spender.value) == balance
  {
    var topped := EnsureBalance(actor, token, balance, account);
    if SpenderGiven(spender) then
      var approved := EnsureApproval(actor, token, balance, spender.value, topped.1);
      (topped.0 + approved.0, approved.1)
    else topped
  }

  /** The tokens in order, each step seeing the accounts the earlier steps left. */
  function RunTokens(actor: Wallet, tokens: seq<Token>, balance: int, spender: Option<string>,
                     ledger: map<Token, Account>): (r: (seq<Action>, map<Token, Account>))
    requires forall k :: 0 <= k < |tokens| ==> tokens[k] in ledger
    ensures r.1.Keys == ledger.Keys
    decreases |tokens|
  {
    if tokens == [] then ([], ledger)
    else
      var (actions, mid) := RunTokens(actor, tokens[..|tokens| - 1], balance, spender, ledger);
      var token := tokens[|tokens| - 1];
      var (more, account) := TokenStep(actor, token, balance, spender, mid[token]);
      (actions + more, mid[token := account])
  }

  /**
   * `ensureBalancesAndApprovals` over the wrapped token list: returns the actions
   * sent, in order, and the accounts afterwards.
   */
  method EnsureBalancesAndApprovals(actor: Wallet, tokens: seq<Token>, balance: int, spender: Option<string>,
                                    ledger: map<Token, Account>)
    returns (actions: seq<Action>, after: map<Token, Account>)
    requires forall k :: 0 <= k < |tokens| ==> tokens[k] in ledger
    ensures (actions, after) == RunTokens(actor, tokens, balance, spender, ledger)
  {
    actions, after := [], ledger;
    var i := 0;
    while i < |tokens|
      invariant 0 <= i <= |tokens|
      invariant (actions, after) == RunTokens(actor, tokens[..i], balance, spender, ledger)
    {
      assert tokens[..i + 1][..i] == tokens[..i];
      var token := tokens[i];
      var step := EnsureBalance(actor, token, balance, after[token]);
      var sent, account := step.0, step.1;
      if SpenderGiven(spender) {
        var approval := EnsureApproval(actor, token, balance, spender.value, account);
        sent, account := sent + approval.0, approval.1;
      }
      actions := actions + sent;
      after := after[token := account];
      i := i + 1;
    }
    assert tokens[..i] == tokens;
  }

  /** Afterwards every listed token holds at least `balance` for the actor, and no balance went down. */
  lemma {:induction false} RunTokensEnsuresBalances(actor: Wallet, tokens: seq<Token>, balance: int,
                                                    spender: Option<string>, ledger: map<Token, Account>)
    requires forall k :: 0 <= k < |tokens| ==> tokens[k] in ledger
    ensures var after := RunTokens(actor, tokens, balance, spender, ledger).1;
      && (forall k :: 0 <= k < |tokens| ==> after[tokens[k]].balance >= balance)
      && (forall t :: t in ledger ==> after[t].balance >= ledger[t].balance)
    decreases |tokens|
  {
    if tokens != [] {
      var init := tokens[..|tokens| - 1];
      RunTokensEnsuresBalances(actor, init, balance, spender, ledger);
      assert forall k :: 0 <= k < |init| ==> init[k] == tokens[k];
    }
  }

  /**
   * With a spender given, afterwards every listed token either already lets the
   * actor spend `balance` from itself or has the spender approved for exactly `balance`.
   */
  lemma {:induction false} RunTokensEnsuresApprovals(actor: Wallet, tokens: seq<Token>, balance: int,
                                                     spender: Option<string>, ledger: map<Token, Account>)
    requires forall k :: 0 <= k < |tokens| ==> tokens[k] in ledger
    requires SpenderGiven(spender)
    ensures var after := RunTokens(actor, tokens, balance, spender, ledger).1;
      forall k :: 0 <= k < |tokens| ==>
        AllowanceOf(after[tokens[k]], actor.address) >= balance || AllowanceOf(after[tokens[k]], spender.value) == balance
    decreases |tokens|
  {
    if tokens != [] {
      var init := tokens[..|tokens| - 1];
      RunTokensEnsuresApprovals(actor, init, balance, spender, ledger);
      assert forall k :: 0 <= k < |init| ==> init[k] == tokens[k];
    }
  }

  /** Without a spender no allowance of any account changes. */
  lemma {:induction false} RunTokensKeepsAllowances(actor: Wallet, tokens: seq<Token>, balance: int,
                                                    spender: Option<string>, ledger: map<Token, Account>)
    requires forall k :: 0 <= k < |tokens| ==> tokens[k] in ledger
    requires !SpenderGiven(spender)
    ensures var after := RunTokens(actor, tokens, balance, spender, ledger).1;
      forall t :: t in ledger ==> after[t].allowances == ledger[t].allowances
    decreases |tokens|
  {
    if tokens != [] {
      RunTokensKeepsAllowances(actor, tokens[..|tokens| - 1], balance, spender, ledger);
    }
  }

  /** A token missing from the list keeps its account, whether or not a spender is given. */
  lemma {:induction false} RunTokensFramesUnlisted(actor: Wallet, tokens: seq<Token>, balance: int,
                                                   spender: Option<string>, ledger: map<Token, Account>, t: Token)
    requires forall k :: 0 <= k < |tokens| ==> tokens[k] in ledger
    requires t in ledger && t !in tokens
    ensures RunTokens(actor, tokens, balance, spender, ledger).1[t] == ledger[t]
    decreases |tokens|
  {
    if tokens != [] {
      RunTokensFramesUnlisted(actor, tokens[..|tokens| - 1], balance, spender, ledger, t);
    }
  }

  /**
   * Whether the spender is approved never depends on the spender's own allowance:
   * the same actions are sent whatever that allowance is.
   */
  lemma ApprovalIndependentOfSpenderAllowance(actor: Wallet, token: Token, balance: int, spender: string,
                                              account: Account, v: int)
    requires spender != actor.address
    ensures EnsureApproval(actor, token, balance, spender, account.(allowances := account.allowances[spender := v])).0
      == EnsureApproval(actor, token, balance, spender, account).0
  {
  }

  /**
   * Because the check reads the actor's allowance to itself, a spender with no
   * allowance is not approved when that self-allowance already covers `balance`.
   */
  lemma ApprovalIgnoresSpenderAllowance(actor: Wallet, token: Token, spender: string)
    requires spender != actor.address && spender != ""
    ensures var account := Account(100, map[actor.address := 100]);
      var (actions, after) := TokenStep(actor, token, 100, Some(spender), account);
      actions == [] && AllowanceOf(after, spender) == 0
  {
  }
}
