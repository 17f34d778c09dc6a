/** The errors the pool program reports, and the result types that carry them. */
module Errors {

  datatype Error =
    | AccountDataTooSmall
    | AccountNotRentExempt
    | CalculationFailure
    | DepositTooSmall
    | FeeIncreaseTooHigh
    | FeeTooHigh
    | IncorrectDepositVoteAddress
    | IncorrectWithdrawVoteAddress
    | InsufficientFunds
    | InvalidPreferredValidator
    | InvalidStakeAccountAddress
    | NonZeroPoolTokenSupply
    | SolWithdrawalTooLarge
    | StakeLamportsNotEqualToMinimum
    | StakeListAndPoolOutOfDate
    | StakeListOutOfDate
    | TransientAccountInUse
    | UnexpectedValidatorListAccountSize
    | ValidatorAlreadyAdded
    | ValidatorNotFound
    | WithdrawalTooSmall
    | WrongStakeState
    | Foreign    // a call into the stake, token or system program failed
    | Environment    // the environment cannot take this step

  datatype Result<+T> = Ok(value: T) | Err(error: Error) {
    predicate IsFailure() {
      Err?
    }

    function PropagateFailure<U>(): Result<U>
      requires Err?
    {
      Err(error)
    }

    function Extract(): T
      requires Ok?
    {
      value
    }
  }

  function Need(condition: bool, error: Error): Result<()> {
    if condition then Ok(()) else Err(error)
  }
}
