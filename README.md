# Uniswap v3 staker test helpers, modelled in Dafny

The repository's own code is the test harness around the Uniswap v3 staking
contract. The contract's Solidity source is not in the repository, so it is not
modelled. What is modelled are the self-contained helpers the test suites rely on:

- **Tick bounds** (`PeripheryTicks`, `DefaultTicks`). These are the fee tiers and their
  tick spacings, the smallest and largest tick usable with a spacing, the most
  liquidity one tick may hold, and the full-range tick pair for a fee tier.
- **Token ordering** (`TokenSort`). Two tokens are ordered by lowercased address,
  with JavaScript's string `<`.
- **Library linking** (`LinkLibraries`). Library addresses are spliced into hex
  bytecode at the byte offsets named by the link references. `Link` loops over files and
  contract names and calls `LinkContract`, which loops over one contract's references.
  Each of the two methods is proved equal to a recursive specification.
- **The `beWithin` chai matcher** (`BeWithin`). This covers the predicate it computes,
  its effect (there is none), and the two-sided check its test expects.
- **Decimal scaling** (`DecimalMath`). `BNe(n, p)` is `n · 10^p`.
- **Test actors** (`Actors`). Each role has a fixed wallet index, and a guarded lookup
  maps roles to wallets.
- **Reward-math test cases** (`RewardMathHelper`). Defaults fill a test case in place
  using JavaScript `||=` truthiness. A `class` models the mutated object.
- **Helper commands** (`HelperCommands`). These are the pure decisions in the flows:
  - the defaulting and incentive key of `createIncentiveFlow`;
  - its adapter back to a stake key;
  - the `isDone` stopping test of `makeTickGoFlow`;
  - the top-up and approval decisions of `ERC20Helper`. Token balances and allowances
    are passed in as a map.

JavaScript specifics are written out explicitly:
- `Math.floor` and `Math.ceil` become integer division with a positive divisor.
- `String.prototype.slice` clamps its indices.
- Truthiness: `undefined`, `0` and `""` are falsy, and every BigNumber object is truthy.
- A thrown error becomes `Result.Failure`.

## Model

| member | source | states |
|---|---|---|
| `PeripheryTicks.FeeValue` | test/shared/external/v3-periphery/constants.ts:9-13 | each fee tier (500, 3000, 10000) is positive and below 1,000,000, that is, below 100% in hundredths of a basis point |
| `PeripheryTicks.TickSpacing` | test/shared/external/v3-periphery/constants.ts:15-19 | the spacings 10, 60 and 200 are positive and divide their fee (500, 3000, 10000) |
| `PeripheryTicks.FloorDiv` | test/shared/external/v3-periphery/ticks.ts:7 | `Math.floor(a / s)` for s > 0: q·s ≤ a < q·s + s |
| `PeripheryTicks.CeilDiv` | test/shared/external/v3-periphery/ticks.ts:5 | `Math.ceil(a / s)` for s > 0: q·s − s < a ≤ q·s |
| `PeripheryTicks.GetMinTick` | test/shared/external/v3-periphery/ticks.ts:5 | the result is a multiple of s, ≥ −887272, and minus s it is < −887272 (the smallest such multiple) |
| `PeripheryTicks.GetMaxTick` | test/shared/external/v3-periphery/ticks.ts:7 | the result is a multiple of s, ≤ 887272, and plus s it is > 887272 (the largest such multiple) |
| `PeripheryTicks.MinTickIsNegatedMaxTick` | test/shared/external/v3-periphery/ticks.ts:5-7 | getMinTick(s) = −getMaxTick(s) for every s > 0 |
| `PeripheryTicks.UsableTickCount` | test/shared/external/v3-periphery/ticks.ts:13 | the number of usable ticks 2·floor(887272/s) + 1 is at least 1 |
| `PeripheryTicks.TickRangeDividesExactly` | test/shared/external/v3-periphery/ticks.ts:13 | (max − min) / s is exact, and it plus 1 is 2·floor(887272/s) + 1 |
| `PeripheryTicks.GetMaxLiquidityPerTick` | test/shared/external/v3-periphery/ticks.ts:9-13 | with n usable ticks, r·n ≤ 2^128 − 1 < (r + 1)·n, i.e. r = floor((2^128 − 1)/n) |
| `PeripheryTicks.FeeTierTickBounds` | test/shared/external/v3-periphery/ticks.ts:5-7 | the spacings 10, 60 and 200 give ∓887270, ∓887220 and ∓887200 |
| `DefaultTicks.FeeOrDefault` | test/shared/ticks.ts:5 | a missing fee argument means MEDIUM; a given one is used as is |
| `DefaultTicks.GetDefaultTicks` | test/shared/ticks.ts:5-8 | both ends are the extreme multiples of the tier's spacing, tickLower < tickUpper, and tickLower = −tickUpper |
| `DefaultTicks.GetDefaultTicksArray` | test/shared/ticks.ts:10-13 | the pair is [tickLower, tickUpper] of the object form, in that order |
| `DefaultTicks.DefaultTicksWithoutFee` | test/shared/ticks.ts:5 | with no argument the pair is (−887220, 887220) |
| `DefaultTicks.DefaultTicksAreTierBounds` | test/shared/ticks.ts:6-7 | the pair is exactly (getMinTick, getMaxTick) of TICK_SPACINGS[fee] |
| `TokenSort.LowerChar` | test/shared/external/v3-periphery/tokenSort.ts:4 | upper-case ASCII letters map to lower case; every other character is unchanged |
| `TokenSort.ToLower` | test/shared/external/v3-periphery/tokenSort.ts:4 | lowercasing keeps the length, lowercases each character and leaves no ASCII capital |
| `TokenSort.ToLowerIdempotent` | test/shared/external/v3-periphery/tokenSort.ts:4 | lowercasing twice is lowercasing once |
| `TokenSort.StrLess` | test/shared/external/v3-periphery/tokenSort.ts:4 | string `<`: a is below b exactly when a is a proper prefix of b, or the two agree up to some position where a has the smaller character |
| `TokenSort.StrLessTransitive` | test/shared/external/v3-periphery/tokenSort.ts:4 | string `<` is transitive |
| `TokenSort.StrLessConnected` | test/shared/external/v3-periphery/tokenSort.ts:4 | any two different strings are ordered by `<` one way or the other |
| `TokenSort.CompareToken` | test/shared/external/v3-periphery/tokenSort.ts:3-5 | the result is −1 or 1 and never 0; it is −1 exactly when lower(a) < lower(b) |
| `TokenSort.SortedTokens` | test/shared/external/v3-periphery/tokenSort.ts:7-12 | the result is (a, b) or (b, a); its first lowercased address is not above the second's; a case-insensitive tie gives (b, a) |
| `TokenSort.SortedTokensIgnoresArgumentOrder` | test/shared/external/v3-periphery/tokenSort.ts:7-12 | for different lowercased addresses, (a, b) and (b, a) sort to the same, strictly ordered pair |
| `TokenSort.SortedTokensDependsOnKeysOnly` | test/shared/external/v3-periphery/tokenSort.ts:3-12 | tokens with the same lowercased addresses compare and sort alike |
| `LinkLibraries.Slice` | test/shared/linkLibraries.ts:34-36 | `slice(from, to)` is the substring when in bounds, and empty from past the end |
| `LinkLibraries.Splice` | test/shared/linkLibraries.ts:31-36 | in bounds: the characters before 2 + 2·start and after 2 + 2·(start + length) are kept, the 40 hex digits of the address sit between them, and the length changes by 40 − 2·length (unchanged for 20 bytes); a range that straddles the end keeps the prefix and appends the address, dropping the rest; a start past the end appends the address |
| `LinkLibraries.ApplyReferences` | test/shared/linkLibraries.ts:30-37 | no references leave the bytecode as it is; 20-byte slots that all lie inside the bytecode keep its length |
| `LinkLibraries.ApplyContracts` | test/shared/linkLibraries.ts:25-38 | a throw names a contract name that has no library (that it is one of the file's names is `ApplyContractsErrorNamesAContract`) |
| `LinkLibraries.ApplyFiles` | test/shared/linkLibraries.ts:24-39 | a throw names a contract name that has no library (that some file references it is `ApplyFilesErrorNamesAContract`) |
| `LinkLibraries.LinkContract` | test/shared/linkLibraries.ts:30-37 | the loop over one contract's references returns exactly their in-order application, each splice to the string the previous one left |
| `LinkLibraries.Link` | test/shared/linkLibraries.ts:10-41 | the loops return exactly the sequential application of every reference of every contract of every file, in order, each to the already updated string, or the error of the first contract name without a library |
| `LinkLibraries.ApplyContractsErrorNamesAContract` | test/shared/linkLibraries.ts:25-28 | a throw from one file names one of that file's contract names |
| `LinkLibraries.ApplyFilesErrorNamesAContract` | test/shared/linkLibraries.ts:24-28 | a throw from the link names a contract name referenced from one of the files |
| `LinkLibraries.ContractsFailIffUncovered` | test/shared/linkLibraries.ts:25-28 | one file's contracts throw exactly when some contract name has no library |
| `LinkLibraries.LinkFailsIffUncovered` | test/shared/linkLibraries.ts:24-28 | linking throws, returning nothing, exactly when some referenced contract name has no library |
| `LinkLibraries.ContractFailurePersists` | test/shared/linkLibraries.ts:26-28 | once a contract throws, the later contracts of the file do not change the outcome |
| `LinkLibraries.FileFailurePersists` | test/shared/linkLibraries.ts:24-28 | once a file throws, the later files do not change the outcome |
| `LinkLibraries.ApplyReferencesConcat` | test/shared/linkLibraries.ts:30-37 | applying two runs of references in turn equals applying their concatenation |
| `LinkLibraries.LinkKeepsLength` | test/shared/linkLibraries.ts:31-36 | when every reference is a 20-byte slot inside the bytecode, a successful link keeps its length |
| `LinkLibraries.EmptyReferencesKeepBytecode` | test/shared/linkLibraries.ts:24-40 | with every library present and no references (in particular no files), the bytecode is returned unchanged |
| `LinkLibraries.EmptyContractsKeepBytecode` | test/shared/linkLibraries.ts:25-37 | contracts with libraries and no references leave the bytecode unchanged |
| `BeWithin.WithinAsWritten` | test/matchers/beWithin.ts:20-23 | the result is exactly abs(obj) ≤ abs(actual) + margin; it is true whenever abs(obj) ≤ abs(actual) and margin ≥ 0 |
| `BeWithin.WithinAsWrittenIgnoresSigns` | test/matchers/beWithin.ts:20-22 | negating obj or actual does not change the result |
| `BeWithin.WithinAsWrittenMonotoneInMargin` | test/matchers/beWithin.ts:23 | a result that is true at margin m stays true at any m' ≥ m |
| `BeWithin.WithinAsWrittenIsOneSided` | test/matchers/beWithin.ts:38 | 100 is within 1 of 102 by the written predicate, though the test expects it not to be |
| `BeWithin.WithinAsWrittenOtherExpectations` | test/matchers/beWithin.ts:35-39 | the written predicate meets the expectations of lines 35, 36, 37 and 39 |
| `BeWithin.WithinIntended` | test/matchers/beWithin.ts:33-40 | the intended check holds exactly when actual − margin ≤ obj ≤ actual + margin |
| `BeWithin.WithinIntendedMeetsExpectations` | test/matchers/beWithin.ts:35-39 | the intended check is symmetric and meets all five expectations of the test |
| `BeWithin.Evaluate` | test/matchers/beWithin.ts:25-28 | evaluated assertions pass exactly when none has a value equal to its `.not` flag |
| `BeWithin.MatcherAsWritten` | test/matchers/beWithin.ts:19-29 | the matcher computes the result but evaluates no assertion, so its assertions pass |
| `BeWithin.MatcherAsWrittenNeverFails` | test/matchers/beWithin.ts:25-28 | the matcher never fails, with or without `.not`, because no assertion is evaluated |
| `BeWithin.MatcherIntended` | test/matchers/beWithin.ts:25-28 | an asserting matcher evaluates one assertion, carrying the `.not` flag, whose value is the two-sided check actual − margin ≤ obj ≤ actual + margin |
| `BeWithin.MatcherIntendedFollowsCheck` | test/matchers/beWithin.ts:25-28 | an asserting matcher passes exactly when the check differs from the `.not` flag |
| `DecimalMath.Pow10` | test/shared/math.ts:5 | 10^p is at least 1 |
| `DecimalMath.BNe` | test/shared/math.ts:4-5 | n·10^p is zero exactly when n is, has the sign of n, and equals n for p = 0 |
| `DecimalMath.BNe18` | test/shared/math.ts:6 | BNe18(n) = BNe(n, 18) = n·10^18 |
| `DecimalMath.BNeAddExponents` | test/shared/math.ts:4-5 | BNe(n, a + b) = BNe(n, a)·10^b |
| `Actors.UserIndex` | test/shared/actors.ts:4-16 | every role index lies in 0..10 |
| `Actors.RoleAt` | test/shared/actors.ts:4-16 | every index in 0..10 is the index of some role |
| `Actors.UserIndexesAreOneToOne` | test/shared/actors.ts:4-16 | the role indexes are pairwise distinct; with RoleAt, the roles and 0..10 are in one-to-one correspondence |
| `Actors.GetActor` | test/shared/actors.ts:81-91 | index 0 throws "invalid index"; an index with no wallet throws "could not be loaded"; otherwise the result is wallets[index] |
| `Actors.ActorFor` | test/shared/actors.ts:29-79 | the WETH owner's accessor always throws; every other accessor succeeds exactly when its fixed index has a wallet, and returns that wallet (e.g. wallets[10] for the incentive creator) |
| `Actors.LpUsers` | test/shared/actors.ts:60-62 | the result is [wallets[4], wallets[5], wallets[6]] when there are more than 6 wallets; otherwise the first missing of indexes 4, 5, 6 throws |
| `RewardMathHelper.Truthy` | test/unit/RewardMath/helper.ts:30-36 | exactly undefined, the number 0 and the empty string are falsy; every BigNumber, zero included, is truthy |
| `RewardMathHelper.OrAssign` | test/unit/RewardMath/helper.ts:30-36 | `v ||= d` keeps a truthy v and otherwise gives d |
| `RewardMathHelper.OrAssignDescription` | test/unit/RewardMath/helper.ts:29 | a non-empty description is kept; a missing or empty one becomes the default |
| `RewardMathHelper.WriteDescription` | test/unit/RewardMath/helper.ts:19-24 | the result is the description when it is non-empty, else "hello", and is never empty |
| `RewardMathHelper.Filled` | test/unit/RewardMath/helper.ts:26-38 | every field is set afterwards; truthy fields are kept; missing or falsy ones take the defaults: "Generic Test Case", 100, 100, 123456, 1234567, 12345, 1 and 2 |
| `RewardMathHelper.FilledIdempotent` | test/unit/RewardMath/helper.ts:29-36 | a complete case is unchanged, so filling twice equals filling once |
| `RewardMathHelper.FilledExamples` | test/unit/RewardMath/helper.ts:29-36 | an empty case becomes the defaults; a BigNumber 0 is kept; a plain 0 or an empty description is overwritten |
| `RewardMathHelper.FillTestCase` | test/unit/RewardMath/helper.ts:26-39 | the given object is mutated so that its fields equal those of Filled, and that same object is returned |
| `HelperCommands.EndTimeOrDefault` | test/helpers/index.ts:98 | an absent or zero end time becomes startTime + 2000; any other is kept |
| `HelperCommands.RefundeeOrDefault` | test/helpers/index.ts:118 | an absent or empty refundee becomes the incentive creator's address; any other is kept |
| `HelperCommands.PlanCreateIncentive` | test/helpers/index.ts:96-127 | the modelled part (the creator lookup and the defaults) throws exactly when there is no 11th wallet; otherwise it sends the key (reward token address, pool, start, defaulted end, defaulted refundee) with totalReward, and returns the same end time and refundee |
| `HelperCommands.IncentiveResultToStakeAdapter` | test/helpers/index.ts:428-434 | pool is poolAddress, rewardToken is rewardToken.address, and the times and refundee are copied |
| `HelperCommands.AdapterRecoversCreatedKey` | test/helpers/index.ts:113-127 | converting a creation result back with the adapter gives exactly the key the incentive was created with |
| `HelperCommands.AdapterIgnoresTotalReward` | test/helpers/index.ts:428-434 | the key does not depend on the total reward |
| `HelperCommands.IsDone` | test/helpers/index.ts:330-340 | true without a non-zero target; false while the tick is undefined or 0; otherwise tick > target going up and tick < target going down |
| `HelperCommands.ZeroTickNeverDone` | test/helpers/index.ts:333-334 | a tick of 0 does not stop the flow even when 0 is already past the target |
| `HelperCommands.IsDoneMonotone` | test/helpers/index.ts:335-339 | once done, a non-zero tick further in the same direction is still done |
| `HelperCommands.TopUpAmount` | test/helpers/index.ts:403-409 | a transfer is sent exactly when current < balance, and it is of exactly balance − current |
| `HelperCommands.NeedsApproval` | test/helpers/index.ts:418-423 | approval is sent exactly when the actor's allowance to itself is below balance |
| `HelperCommands.AllowanceOf` | test/helpers/index.ts:419 | an allowance never approved reads as 0; otherwise it is the approved amount |
| `HelperCommands.SpenderGiven` | test/helpers/index.ts:397 | `if (spender)` holds exactly when a spender is given and is not the empty string |
| `HelperCommands.EnsureBalance` | test/helpers/index.ts:403-416 | when current < balance, exactly one transfer of balance − current to the actor is sent and the balance becomes balance; otherwise nothing is sent and the account is unchanged; so the balance ends at least the target and not below where it was; allowances are untouched |
| `HelperCommands.EnsureApproval` | test/helpers/index.ts:418-423 | when the self-allowance is below balance exactly one approve of the spender for balance is sent and that allowance becomes balance; allowances to every other spender and the balance never change; otherwise nothing is sent or changed |
| `HelperCommands.TokenStep` | test/helpers/index.ts:396-399 | one token: without a spender, exactly ensureBalance; with one, ensureBalance's actions followed by ensureApproval's on the topped-up account; the balance ends at least the target, and with a spender either the self-allowance covers balance or the spender is approved for exactly balance |
| `HelperCommands.RunTokens` | test/helpers/index.ts:389-401 | the tokens are processed in order, each step seeing the accounts the earlier ones left; the ledger keeps the same set of tokens |
| `HelperCommands.RunTokensFramesUnlisted` | test/helpers/index.ts:395-400 | a token missing from the list keeps its whole account, with or without a spender |
| `HelperCommands.EnsureBalancesAndApprovals` | test/helpers/index.ts:389-401 | the loop sends, token by token, ensureBalance's transfer, then ensureApproval's approval only when a spender is given, and leaves the accounts as that sequence does |
| `HelperCommands.RunTokensEnsuresBalances` | test/helpers/index.ts:395-409 | afterwards every listed token holds at least balance for the actor, and no balance went down |
| `HelperCommands.RunTokensEnsuresApprovals` | test/helpers/index.ts:395-400 | with a spender given, afterwards every listed token has a self-allowance of at least balance or the spender approved for exactly balance |
| `HelperCommands.RunTokensKeepsAllowances` | test/helpers/index.ts:395-400 | without a spender, no allowance of any token changes |
| `HelperCommands.ApprovalIndependentOfSpenderAllowance` | test/helpers/index.ts:418-423 | for every account, balance and spender other than the actor, changing the spender's own allowance does not change the actions ensureApproval sends |
| `HelperCommands.ApprovalIgnoresSpenderAllowance` | test/helpers/index.ts:418-423 | a spender with allowance 0 is not approved when the actor's self-allowance already covers balance |

## Left out

- The staking contracts (`UniswapV3Staker`, `UniswapStakerNFT`, `BulkIncentiveCreator`, `RewardMath`, `StakedNFTDescriptor`) are not part of this model. The repository holds only tests that call them, so their incentive, stake, claim and end-incentive accounting is not modelled.
- Fixtures, deployment, network configuration, ABI loading, provider calls (block time, `mintPosition` log scanning) and the mainnet accounting script are I/O and are left out.
- `encodePriceSqrt` is left out, because it computes floating-point and decimal square roots.
- The awaited contract calls in the `*Flow` methods are left out. So are the flows other than the pure parts listed above, the `makeTickGoFlow` trade loop (driven by I/O, with no termination bound), the `bal < totalReward` top-up in `createIncentiveFlow` (a JavaScript comparison of BigNumber objects) and `Promise.all` fan-out.
- PeripheryTicks.GetMinTick: requires a tick spacing > 0. JavaScript gives NaN for 0, and no caller passes a spacing ≤ 0. The same holds for GetMaxTick, GetMaxLiquidityPerTick, FloorDiv and CeilDiv.
- TokenSort.ToLower: lowercases ASCII letters only. JavaScript also lowercases other Unicode letters; addresses are hex.
- TokenSort.StrLess: compares Dafny characters (Unicode scalar values) rather than UTF-16 code units. The two orders agree below U+D800, which covers every hex address.
- LinkLibraries.Link: takes each library as its 40 lowercase hex digits. The `utils.getAddress` checksum validation, with its throw on a malformed address, is a foreign library call and is not part of this model.
- LinkLibraries.Link: reference offsets are natural numbers. Negative or fractional offsets, which `slice` would count from the end or truncate, are not modelled.
- LinkLibraries.Link: the objects keyed by file and contract name are ordered sequences of entries. JavaScript's rule that integer-like keys enumerate first is not modelled; the names are file and contract names.
- DecimalMath.BNe: exponents are natural numbers. The throw of `BigNumber.from` on numbers beyond 2^53 or fractional numbers, and of `pow` on a negative exponent, belong to the ethers library and are not modelled.
- Actors.GetActor: indexes are integers. NaN and other non-integer indexes are not modelled. The provider stored by the fixture is not used by any accessor and is left out.
- RewardMathHelper.Truthy: the falsy values modelled are undefined, 0 and "". `null`, `false`, NaN and −0 are not modelled, nor are bigint and byte-array BigNumberish forms.
- HelperCommands.EnsureBalancesAndApprovals: the token list is taken already wrapped. `arrayWrap` is not part of this model.
- HelperCommands.EnsureBalancesAndApprovals: each token's state is the actor's balance and allowances, passed in as a map. A transfer is taken to come from another, sufficiently funded account. Reverting calls are not modelled.
- HelperCommands.PlanCreateIncentive: the flow's other throws are not modelled. These are reverts of the awaited `balanceOf`, `transfer`, `approve` and staker `createIncentive` calls (index.ts:105-121), for example on a time window the staker rejects. Only the creator lookup's throw is modelled.
- HelperCommands.PlanCreateIncentive: the declared result type of `createIncentiveFlow` (test/helpers/types.ts:37-45) has no refundee. The code does return one, and the model follows the code.

## Findings

| source | as written | input that shows it | evidently intended | confidence | as-written member | corrected member |
|---|---|---|---|---|---|---|
| test/matchers/beWithin.ts:20-23 | `abs(obj) − abs(actual) ≤ margin`, which is one-sided and compares magnitudes | obj 100, margin 1, actual 102 gives true, while line 38 expects false | `abs(obj − actual) ≤ margin` | medium; not executed | `BeWithin.WithinAsWrittenIsOneSided` | `BeWithin.WithinIntendedMeetsExpectations` |
| test/matchers/beWithin.ts:25-28 | builds `new Assertion(result, …)` and never asserts it | any input; e.g. line 38 under `.not` passes whatever the result | assert the result, so that failures and `.not` take effect | high; not executed | `BeWithin.MatcherAsWrittenNeverFails` | `BeWithin.MatcherIntendedFollowsCheck` |
