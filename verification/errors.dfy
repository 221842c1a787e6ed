/** The error codes an instruction can abort with: the program's own
    `PanchoError` enum, plus the three ways the host aborts a transaction that
    the modelled handlers can reach. */
module Errors {

  datatype Error =
    | InvalidFeeBps
    | ProtocolPaused
    | InvalidSchedule
    | InvalidSide
    | InvalidStake
    | RoundNotOpen
    | RoundLocked
    | PositionSideMismatch
    | AlreadyClaimed
    | MathOverflow
    | RoundAlreadyLocked
    | TooEarlyToLock
    | LockWindowExpired
    | TooEarlyToSettle
    | RoundAlreadySettled
    | InsufficientVaultLiquidity
    | RoundNotSettled
    | NothingToClaim
    | VaultRoundMismatch
    | PositionRoundMismatch
    | PositionUserMismatch
    | InvalidOraclePrice
    | UnexpectedOracleAccount
    | InvalidOracleOwner
    | StaleOraclePrice
      /** The system program refused the stake transfer of `join_round`: the
          payer holds fewer lamports than the stake, or crediting the vault
          would overflow. */
    | TransferFailed
      /** A plain (unchecked) Rust addition overflowed; with overflow checks
          on, the program panics and the transaction aborts. */
    | OverflowPanic
      /** The position account handed to `claim` has never been created. */
    | AccountNotInitialized
}
