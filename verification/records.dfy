/** The on-chain records of the program (`GlobalConfig`, `Round`, `Position`),
    the status and side codes, and the lamport balances of a round's two
    vaults. Public keys are opaque and only compared for equality. */
module Records {
  import opened Wrappers
  import opened Ints

  const BPS_DENOMINATOR: U64 := 10_000
  /** The largest fee `initialize_config` and `set_config` accept. */
  const MAX_FEE_BPS: U16 := 1_500
  const LOCK_GRACE_SECONDS: int := 45

  const SIDE_UP: U8 := 0
  const SIDE_DOWN: U8 := 1
  const SIDE_NONE: U8 := 255

  datatype Pubkey = Pubkey(bytes: seq<U8>)

  datatype Side = Up | Down

  function SideCode(side: Side): U8
  {
    match side
    case Up => SIDE_UP
    case Down => SIDE_DOWN
  }

  /** The side an instruction argument names, if it names one. */
  function SideFromCode(code: U8): (side: Option<Side>)
    ensures side.Some? <==> code == SIDE_UP || code == SIDE_DOWN
    ensures side.Some? ==> SideCode(side.value) == code
  {
    if code == SIDE_UP then Some(Up)
    else if code == SIDE_DOWN then Some(Down)
    else None
  }

  /** `ROUND_OPEN`, `ROUND_LOCKED`, `ROUND_SETTLED` */
  datatype Status = Open | Locked | Settled

  function StatusCode(status: Status): U8
  {
    match status
    case Open => 0
    case Locked => 1
    case Settled => 2
  }

  /** `winner_side`: `SIDE_NONE` (a push) or the winning side. */
  datatype Winner = NoWinner | Won(side: Side)

  /** The `winner_side` byte a settled round records. */
  function WinnerCode(winner: Winner): (code: U8)
    ensures code == SIDE_NONE <==> winner == NoWinner
    ensures winner.Won? ==> SideFromCode(code) == Some(winner.side)
  {
    match winner
    case NoWinner => SIDE_NONE
    case Won(side) => SideCode(side)
  }

  datatype GlobalConfig = GlobalConfig(
    admin: Pubkey,
    treasury: Pubkey,
    oracleProgram: Pubkey,
    feeBps: U16,
    oracleMaxAgeSec: U32,
    paused: bool)

  datatype Round = Round(
    roundId: I64,
    market: U8,
    feedId: seq<U8>,
    oraclePriceAccount: Pubkey,
    lockTs: I64,
    endTs: I64,
    startPrice: I64,
    endPrice: I64,
    expo: I32,
    status: Status,
    winner: Winner,
    upTotal: U64,
    downTotal: U64,
    feeLamports: U64,
    distributableLamports: U64)

  function SideTotal(round: Round, side: Side): U64
  {
    match side
    case Up => round.upTotal
    case Down => round.downTotal
  }

  datatype Position = Position(
    round: Pubkey,
    user: Pubkey,
    side: Side,
    amount: U64,
    claimed: bool)

  /** A position account as `init_if_needed` creates it: all zero, so its
      side code reads as `SIDE_UP`. */
  const FRESH_POSITION: Position :=
    Position(ZERO_KEY, ZERO_KEY, Up, 0, false)

  /** The all-zero 32-byte key an uninitialised account field holds. */
  const ZERO_KEY: Pubkey := Pubkey(Zeros(32))

  function Zeros(n: nat): (bytes: seq<U8>)
    ensures |bytes| == n && forall i :: 0 <= i < n ==> bytes[i] == 0
  {
    if n == 0 then [] else Zeros(n - 1) + [0]
  }

  /** The lamports held by a round's Up and Down vault accounts. */
  datatype Vaults = Vaults(up: U64, down: U64)

  function VaultBalance(vaults: Vaults, side: Side): U64
  {
    match side
    case Up => vaults.up
    case Down => vaults.down
  }
}
