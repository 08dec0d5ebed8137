/** The outcome of a message: a value, or the error that makes the host revert the transaction. */
module Results {

  datatype Option<+T> = None | Some(value: T)

  /** The named contract errors, and `Overflow` for every checked or panicking arithmetic failure. */
  datatype Error =
    | Unauthorized
    | NoUnbondingPeriodFound
    | SameUnbondingRebond
    | NoRebondAmount
    | NothingToClaim
    | Cw20AddressesNotMatch
    | MassDelegateTooMuch
    | NoDistributionFlow
    | DistributionAlreadyExists
    | TooManyDistributions
    | InvalidRewards
    | InvalidAsset
    | PastStartingTime
    | NoConverter
    | FlagAlreadySet
    | NoPriceData
    | DoublingAssets
    | TooManyAssets
    | SameAssets
    | NotConverging
    | IncorrectAmp
    | MaxAmpChange
    | MinAmpChangingTime
    | EmptyPool
    | InvalidZeroAmount
    | TradingNotStarted
    | ContractFrozen
    | AllowedSpread
    | MaxSpread
    | MaxSlippage
    | MinimumLiquidity
    | SingleTokenNeedsPool
    | CannotDelegateIfUnbondAll
    | CannotDistributeIfUnbondAll
    | CannotRebondIfUnbondAll
    | Overflow

  datatype Result<+T> = Ok(value: T) | Err(error: Error) {
    predicate IsFailure() {
      Err?
    }

    function PropagateFailure<U>(): Result<U>
      requires Err?
    {
      Err(error)
    }

    function Extract(): T
      requires Ok?
    {
      value
    }
  }

  /** Unsigned subtraction: underflow is an error. */
  function Minus(a: nat, b: nat): (r: Result<nat>)
  {
    if b <= a then Ok(a - b) else Err(Overflow)
  }
}
