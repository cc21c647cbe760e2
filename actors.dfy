/**
 * The test actors: fixed roles, each bound to one index into the list of
 * wallets, and the guarded lookup every role accessor goes through.
 */
module Actors {
  import opened Wrappers

  /** An externally owned account, known here by its address. */
  datatype Wallet = Wallet(address: string)

  /** The roles of WALLET_USER_INDEXES. */
  datatype Role =
    | WethOwner | TokensOwner | UniswapRoot | StakerDeployer
    | LpUser0 | LpUser1 | LpUser2
    | TraderUser0 | TraderUser1 | TraderUser2
    | IncentiveCreator

  /** The wallet index of each role. */
  function UserIndex(role: Role): (i: nat)
    ensures i <= 10
  {
    match role
    case WethOwner => 0
    case TokensOwner => 1
    case UniswapRoot => 2
    case StakerDeployer => 3
    case LpUser0 => 4
    case LpUser1 => 5
    case LpUser2 => 6
    case TraderUser0 => 7
    case TraderUser1 => 8
    case TraderUser2 => 9
    case IncentiveCreator => 10
  }

  /** The role at each index 0..10: every index belongs to exactly one role. */
  function RoleAt(i: nat): (role: Role)
    requires i <= 10
    ensures UserIndex(role) == i
  {
    match i
    case 0 => WethOwner
    case 1 => TokensOwner
    case 2 => UniswapRoot
    case 3 => StakerDeployer
    case 4 => LpUser0
    case 5 => LpUser1
    case 6 => LpUser2
    case 7 => TraderUser0
    case 8 => TraderUser1
    case 9 => TraderUser2
    case _ => IncentiveCreator
  }

  /** The indexes are pairwise distinct and are exactly 0..10. */
  lemma UserIndexesAreOneToOne(r1: Role, r2: Role)
    ensures UserIndex(r1) == UserIndex(r2) ==> r1 == r2
    ensures RoleAt(UserIndex(r1)) == r1
  {
  }

  datatype ActorError =
    | InvalidIndex(index: int)      // "Invalid index: <index>"
    | AccountNotLoaded(index: int)  // "Account ID <index> could not be loaded"

  /** The fixture holds the wallets it was constructed with; the provider is not modelled. */
  datatype ActorFixture = ActorFixture(wallets: seq<Wallet>)

  /**
   * `_getActor`: a falsy index (0) is refused outright; an index with no wallet
   * behind it is refused next; otherwise the wallet at that index.
   */
  function GetActor(fixture: ActorFixture, index: int): (r: Result<Wallet, ActorError>)
    ensures r == Failure(InvalidIndex(0)) <==> index == 0
    ensures r == Failure(AccountNotLoaded(index)) <==> index != 0 && !(0 <= index < |fixture.wallets|)
    ensures r.Success? <==> index != 0 && 0 <= index < |fixture.wallets|
    ensures r.Success? ==> r.value == fixture.wallets[index]
  {
    if index == 0 then Failure(InvalidIndex(index))
    else if !(0 <= index < |fixture.wallets|) then Failure(AccountNotLoaded(index))
    else Success(fixture.wallets[index])
  }

  /**
   * The role accessors (`wethOwner()`, `lpUser0()`, ..., `incentiveCreator()`):
   * each looks up its own fixed index. The WETH owner's index is 0, so its
   * accessor always throws.
   */
  function ActorFor(fixture: ActorFixture, role: Role): (r: Result<Wallet, ActorError>)
    ensures role == WethOwner ==> r == Failure(InvalidIndex(0))
    ensures role != WethOwner ==> (r.Success? <==> UserIndex(role) < |fixture.wallets|)
    ensures r.Success? ==> r.value == fixture.wallets[UserIndex(role)]
  {
    GetActor(fixture, UserIndex(role))
  }

  /**
   * `lpUsers()`: the three liquidity providers at indexes 4, 5 and 6, in that
   * order; the first of them without a wallet makes it throw.
   */
  function LpUsers(fixture: ActorFixture): (r: Result<seq<Wallet>, ActorError>)
    ensures r.Success? <==> |fixture.wallets| > 6
    ensures r.Success? ==> r.value == [fixture.wallets[4], fixture.wallets[5], fixture.wallets[6]]
    ensures r.Failure? ==>
      r.error == AccountNotLoaded(if |fixture.wallets| <= 4 then 4 else |fixture.wallets|)
  {
    match ActorFor(fixture, LpUser0)
    case Failure(e) => Failure(e)
    case Success(w0) =>
      match ActorFor(fixture, LpUser1)
      case Failure(e) => Failure(e)
      case Success(w1) =>
        match ActorFor(fixture, LpUser2)
        case Failure(e) => Failure(e)
        case Success(w2) => Success([w0, w1, w2])
  }
}
