/** The program's instruction handlers as pure, all-or-nothing steps: each
    takes the records the instruction reads (plus the clock, the oracle
    account and the lamport balances it moves) and returns either every
    updated record or the error that aborts the transaction. Signer and
    account-address checks done by the account constraints are assumed to
    have passed. */
module Instructions {
  import opened Wrappers
  import opened Ints
  import opened Errors
  import opened Records
  import opened LegacyPyth
  import opened Payout
  import opened VaultTransfer

  /** The configuration invariant that `initialize_config` and `set_config`
      establish. */
  predicate ConfigValid(config: GlobalConfig)
  {
    config.feeBps <= MAX_FEE_BPS
  }

  /** `initialize_config` */
  function InitializeConfig(
    admin: Pubkey, treasury: Pubkey, feeBps: U16, oracleMaxAgeSec: U32, oracleProgram: Pubkey
  ): (r: Result<GlobalConfig, Error>)
    ensures r.Ok? <==> feeBps <= MAX_FEE_BPS
    ensures r.Err? ==> r.error == InvalidFeeBps
    ensures r.Ok? ==> ConfigValid(r.value) && !r.value.paused
    ensures r.Ok? ==>
      && r.value.admin == admin && r.value.treasury == treasury
      && r.value.oracleProgram == oracleProgram
      && r.value.feeBps == feeBps && r.value.oracleMaxAgeSec == oracleMaxAgeSec
  {
    if feeBps > MAX_FEE_BPS then Err(InvalidFeeBps)
    else Ok(GlobalConfig(admin, treasury, oracleProgram, feeBps, oracleMaxAgeSec, false))
  }

  /** `set_config` */
  function SetConfig(config: GlobalConfig, feeBps: U16, oracleMaxAgeSec: U32, paused: bool)
    : (r: Result<GlobalConfig, Error>)
    ensures r.Ok? <==> feeBps <= MAX_FEE_BPS
    ensures r.Err? ==> r.error == InvalidFeeBps
    ensures r.Ok? ==> ConfigValid(r.value)
    ensures r.Ok? ==>
      && r.value.feeBps == feeBps && r.value.oracleMaxAgeSec == oracleMaxAgeSec
      && r.value.paused == paused
      // admin, treasury and oracle program are untouched
      && r.value.(feeBps := config.feeBps, oracleMaxAgeSec := config.oracleMaxAgeSec,
                  paused := config.paused) == config
  {
    if feeBps > MAX_FEE_BPS then Err(InvalidFeeBps)
    else Ok(config.(feeBps := feeBps, oracleMaxAgeSec := oracleMaxAgeSec, paused := paused))
  }

  /** `create_round`: a new round is Open with every total zero. */
  function CreateRound(
    config: GlobalConfig, market: U8, roundId: I64, lockTs: I64, endTs: I64,
    feedId: seq<U8>, oraclePriceAccount: Pubkey, now: I64
  ): (r: Result<Round, Error>)
    ensures config.paused ==> r == Err(ProtocolPaused)
    ensures !config.paused ==> (r.Ok? <==> now < lockTs < endTs)
    ensures !config.paused && r.Err? ==> r.error == InvalidSchedule
    ensures r.Ok? ==>
      && r.value.status == Open && r.value.winner == NoWinner
      && r.value.upTotal == 0 && r.value.downTotal == 0
      && r.value.feeLamports == 0 && r.value.distributableLamports == 0
      && r.value.lockTs == lockTs && r.value.endTs == endTs
      && r.value.oraclePriceAccount == oraclePriceAccount
      && r.value.market == market && r.value.roundId == roundId
      && r.value.feedId == feedId
      && r.value.startPrice == 0 && r.value.endPrice == 0 && r.value.expo == 0
  {
    if config.paused then Err(ProtocolPaused)
    else if endTs <= lockTs then Err(InvalidSchedule)
    else if lockTs <= now then Err(InvalidSchedule)
    else Ok(Round(roundId, market, feedId, oraclePriceAccount, lockTs, endTs,
                  0, 0, 0, Open, NoWinner, 0, 0, 0, 0))
  }

  function Other(side: Side): Side
  {
    match side
    case Up => Down
    case Down => Up
  }

  /** The records `join_round` writes, and the payer's remaining lamports. */
  datatype Joined = Joined(round: Round, position: Position, vaults: Vaults, wallet: U64)

  /** `join_round`: stake `lamports` on the side coded `sideCode`, moving them
      from the payer's `wallet` into that side's vault. */
  function JoinRound(
    config: GlobalConfig, round: Round, roundKey: Pubkey, position: Position,
    vaults: Vaults, user: Pubkey, wallet: U64, sideCode: U8, lamports: U64, now: I64
  ): (r: Result<Joined, Error>)
    // rejection order
    ensures config.paused ==> r == Err(ProtocolPaused)
    ensures !config.paused && lamports == 0 ==> r == Err(InvalidStake)
    ensures !config.paused && lamports > 0 && SideFromCode(sideCode).None? ==>
      r == Err(InvalidSide)
    ensures !config.paused && lamports > 0 && SideFromCode(sideCode).Some? ==>
      var side := SideFromCode(sideCode).value;
      if round.status != Open then r == Err(RoundNotOpen)
      else if now >= round.lockTs then r == Err(RoundLocked)
      else if lamports > wallet || VaultBalance(vaults, side) + lamports > U64_MAX then
        r == Err(TransferFailed)
      else if position.amount > 0 && position.side != side then r == Err(PositionSideMismatch)
      else if position.amount > 0 && position.claimed then r == Err(AlreadyClaimed)
      else if position.amount + lamports > U64_MAX || SideTotal(round, side) + lamports > U64_MAX
      then r == Err(MathOverflow)
      else r.Ok?
    // effects of a successful join
    ensures r.Ok? ==>
      var side := SideFromCode(sideCode).value;
      var j := r.value;
      // the position grows by the stake, on the side it was opened with
      && j.position.amount == position.amount + lamports
      && j.position.side == side && !j.position.claimed
      && (position.amount == 0 ==> j.position.round == roundKey && j.position.user == user)
      && (position.amount > 0 ==> j.position.(amount := position.amount) == position)
      // only the chosen side's total grows, and nothing else in the round changes
      && SideTotal(j.round, side) == SideTotal(round, side) + lamports
      && SideTotal(j.round, Other(side)) == SideTotal(round, Other(side))
      && j.round.(upTotal := round.upTotal, downTotal := round.downTotal) == round
      // the stake moves from the payer into the chosen side's vault
      && VaultBalance(j.vaults, side) == VaultBalance(vaults, side) + lamports
      && VaultBalance(j.vaults, Other(side)) == VaultBalance(vaults, Other(side))
      && j.wallet + lamports == wallet
  {
    if config.paused then Err(ProtocolPaused)
    else if lamports == 0 then Err(InvalidStake)
    else if sideCode != SIDE_UP && sideCode != SIDE_DOWN then Err(InvalidSide)
    else if round.status != Open then Err(RoundNotOpen)
    else if now >= round.lockTs then Err(RoundLocked)
    else
      var side := SideFromCode(sideCode).value;
      // the system-program transfer from the payer to the side vault
      if wallet < lamports || VaultBalance(vaults, side) + lamports > U64_MAX then Err(TransferFailed)
      else
        var vaults' := match side
          case Up => vaults.(up := vaults.up + lamports)
          case Down => vaults.(down := vaults.down + lamports);
        var current :=
          if position.amount == 0 then position.(round := roundKey, user := user, side := side, claimed := false)
          else position;
        if current.side != side then Err(PositionSideMismatch)
        else if current.claimed then Err(AlreadyClaimed)
        else
          var amount :- CheckedAdd(current.amount, lamports).OkOr(MathOverflow);
          var total :- CheckedAdd(SideTotal(round, side), lamports).OkOr(MathOverflow);
          var round' := match side
            case Up => round.(upTotal := total)
            case Down => round.(downTotal := total);
          Ok(Joined(round', current.(amount := amount), vaults', wallet - lamports))
  }

  /** The oracle read `lock_round` and `settle_round` make for `round`. */
  function ReadRoundPrice(config: GlobalConfig, round: Round, oracle: AccountView, slot: U64)
    : Result<OraclePrice, Error>
  {
    ReadLegacyPythPrice(oracle, round.oraclePriceAccount, slot, config.oracleMaxAgeSec,
                        config.oracleProgram)
  }

  /** `lock_round`: inside the inclusive window `[lock_ts, lock_ts + 45]`
      an Open round records the oracle price as its start price and becomes
      Locked. */
  function LockRound(config: GlobalConfig, round: Round, oracle: AccountView, now: I64, slot: U64)
    : (r: Result<Round, Error>)
    ensures config.paused ==> r == Err(ProtocolPaused)
    ensures !config.paused ==>
      if round.status != Open then r == Err(RoundAlreadyLocked)
      else if now < round.lockTs then r == Err(TooEarlyToLock)
      else if round.lockTs + LOCK_GRACE_SECONDS > I64_MAX then r == Err(OverflowPanic)
      else if now > round.lockTs + LOCK_GRACE_SECONDS then r == Err(LockWindowExpired)
      else
        var read := ReadRoundPrice(config, round, oracle, slot);
        && (read.Err? ==> r == Err(read.error))
        && (read.Ok? ==> r.Ok? && r.value.startPrice == read.value.price
                         && r.value.expo == read.value.expo)
    ensures r.Ok? ==> r.value.status == Locked
    // only the start price, exponent and status change
    ensures r.Ok? ==>
      r.value.(startPrice := round.startPrice, expo := round.expo, status := Open) == round
  {
    if config.paused then Err(ProtocolPaused)
    else if round.status != Open then Err(RoundAlreadyLocked)
    else if now < round.lockTs then Err(TooEarlyToLock)
    // `round.lock_ts + LOCK_GRACE_SECONDS` is a plain `i64` addition
    else if round.lockTs + LOCK_GRACE_SECONDS > I64_MAX then Err(OverflowPanic)
    else if now > round.lockTs + LOCK_GRACE_SECONDS then Err(LockWindowExpired)
    else
      var price :- ReadRoundPrice(config, round, oracle, slot);
      Ok(round.(startPrice := price.price, expo := price.expo, status := Locked))
  }

  /** The outcome of a Locked round: a push when one side is empty or the
      price did not move, otherwise the side the price moved towards. */
  function DecideWinner(upTotal: U64, downTotal: U64, startPrice: I64, endPrice: I64): (w: Winner)
    ensures w == NoWinner <==> upTotal == 0 || downTotal == 0 || startPrice == endPrice
    ensures w == Won(Up) <==> upTotal > 0 && downTotal > 0 && endPrice > startPrice
    ensures w == Won(Down) <==> upTotal > 0 && downTotal > 0 && endPrice < startPrice
  {
    if upTotal == 0 || downTotal == 0 || startPrice == endPrice then NoWinner
    else if endPrice > startPrice then Won(Up)
    else Won(Down)
  }

  /** The records `settle_round` writes: the round, the vaults and the
      treasury balance. */
  datatype Settlement = Settlement(round: Round, vaults: Vaults, treasury: U64)

  /** `settle_round`: after `end_ts`, an Open round settles as a push without
      reading the oracle, a Locked round settles on the oracle's end price;
      either way the fee is paid from the vaults to the treasury. */
  function SettleRound(
    config: GlobalConfig, round: Round, vaults: Vaults, treasury: U64,
    oracle: AccountView, now: I64, slot: U64
  ): (r: Result<Settlement, Error>)
    ensures config.paused ==> r == Err(ProtocolPaused)
    // rejection order: the guards, a Locked round's oracle read, the fee
    // split, then the fee transfer
    ensures !config.paused ==>
      if now < round.endTs then r == Err(TooEarlyToSettle)
      else if round.status == Settled then r == Err(RoundAlreadySettled)
      else if round.status == Locked && ReadRoundPrice(config, round, oracle, slot).Err? then
        r == Err(ReadRoundPrice(config, round, oracle, slot).error)
      else
        var split := SplitPool(round.upTotal, round.downTotal, config.feeBps);
        if split.Err? then r == Err(MathOverflow)
        else
          var paid := TransferFromVaults(vaults, treasury, split.value.fee);
          if paid.Err? then r == paid.PropagateFailure()
          // so it goes through exactly when the vaults cover the fee and the
          // treasury can take it
          else r.Ok? && split.value.fee <= vaults.up + vaults.down
               && treasury + split.value.fee <= U64_MAX
    ensures r.Ok? ==> round.status != Settled && r.value.round.status == Settled
    // who won: an Open round is a push, recorded as `SIDE_NONE`
    ensures r.Ok? && round.status == Open ==>
      && r.value.round.winner == NoWinner && WinnerCode(r.value.round.winner) == SIDE_NONE
      && r.value.round.endPrice == round.endPrice
    ensures r.Ok? && round.status == Locked ==>
      && ReadRoundPrice(config, round, oracle, slot).Ok?
      && r.value.round.endPrice == ReadRoundPrice(config, round, oracle, slot).value.price
      && r.value.round.winner ==
         DecideWinner(round.upTotal, round.downTotal, round.startPrice, r.value.round.endPrice)
    // the fee split is `SplitPool`'s
    ensures r.Ok? ==>
      SplitPool(round.upTotal, round.downTotal, config.feeBps)
      == Ok(FeeSplit(r.value.round.feeLamports, r.value.round.distributableLamports))
    // the fee moves from the vaults to the treasury
    ensures r.Ok? ==>
      && r.value.treasury == treasury + r.value.round.feeLamports
      && r.value.vaults.up + r.value.vaults.down + r.value.round.feeLamports
         == vaults.up + vaults.down
    // it is paid by `transfer_from_vaults`, the Up vault first
    ensures r.Ok? ==>
      TransferFromVaults(vaults, treasury, r.value.round.feeLamports)
      == Ok(Withdrawal(r.value.vaults, r.value.treasury))
    ensures r.Ok? && r.value.round.feeLamports <= vaults.up ==>
      r.value.vaults == Vaults(vaults.up - r.value.round.feeLamports, vaults.down)
    // nothing else in the round changes
    ensures r.Ok? ==>
      r.value.round.(endPrice := round.endPrice, winner := round.winner, status := round.status,
                     feeLamports := round.feeLamports,
                     distributableLamports := round.distributableLamports) == round
  {
    if config.paused then Err(ProtocolPaused)
    else if now < round.endTs then Err(TooEarlyToSettle)
    else if round.status == Settled then Err(RoundAlreadySettled)
    else
      var decided :- DecideRound(config, round, oracle, slot);
      assert decided.upTotal == round.upTotal && decided.downTotal == round.downTotal;
      ChargeFee(decided, config.feeBps, vaults, treasury)
  }

  /** The fee part of `settle_round`: split the pool of the decided round and
      pay the fee from the vaults to the treasury. */
  function ChargeFee(decided: Round, feeBps: U16, vaults: Vaults, treasury: U64)
    : (r: Result<Settlement, Error>)
    ensures SplitPool(decided.upTotal, decided.downTotal, feeBps).Err? ==> r == Err(MathOverflow)
    ensures SplitPool(decided.upTotal, decided.downTotal, feeBps).Ok? ==>
      var split := SplitPool(decided.upTotal, decided.downTotal, feeBps).value;
      var paid := TransferFromVaults(vaults, treasury, split.fee);
      && (paid.Err? ==> r == paid.PropagateFailure())
      && (paid.Ok? ==>
            r == Ok(Settlement(
                   decided.(feeLamports := split.fee, distributableLamports := split.distributable),
                   paid.value.vaults, paid.value.to)))
    ensures r.Ok? ==>
      SplitPool(decided.upTotal, decided.downTotal, feeBps)
      == Ok(FeeSplit(r.value.round.feeLamports, r.value.round.distributableLamports))
    ensures r.Ok? ==>
      && TransferFromVaults(vaults, treasury, r.value.round.feeLamports)
         == Ok(Withdrawal(r.value.vaults, r.value.treasury))
      && r.value.treasury == treasury + r.value.round.feeLamports
      && r.value.vaults.up + r.value.vaults.down + r.value.round.feeLamports
         == vaults.up + vaults.down
      && (r.value.round.feeLamports <= vaults.up ==>
            r.value.vaults == Vaults(vaults.up - r.value.round.feeLamports, vaults.down))
    ensures r.Ok? ==>
      r.value.round == decided.(feeLamports := r.value.round.feeLamports,
                                distributableLamports := r.value.round.distributableLamports)
  {
    var split :- SplitPool(decided.upTotal, decided.downTotal, feeBps);
    var paid :- TransferFromVaults(vaults, treasury, split.fee);
    Ok(Settlement(
      decided.(feeLamports := split.fee, distributableLamports := split.distributable),
      paid.vaults, paid.to))
  }

  /** What the fee split of a successful `settle_round` amounts to: the pool
      fits in `u64`, fee plus distributable amount is the pool, the fee is the
      floor of pool × `fee_bps` / 10 000, and under a valid config it is at
      most 15% of the pool. */
  lemma SettleFeeSplit(
    config: GlobalConfig, round: Round, vaults: Vaults, treasury: U64,
    oracle: AccountView, now: I64, slot: U64)
    ensures var r := SettleRound(config, round, vaults, treasury, oracle, now, slot);
      r.Ok? ==>
        var settled := r.value.round;
        var pool := round.upTotal + round.downTotal;
        && pool <= U64_MAX
        && settled.feeLamports + settled.distributableLamports == pool
        && settled.feeLamports * BPS_DENOMINATOR <= pool * config.feeBps
           < (settled.feeLamports + 1) * BPS_DENOMINATOR
        && (ConfigValid(config) ==> settled.feeLamports * 100 <= pool * 15)
  {
  }

  /** The status and outcome part of `settle_round`, before the fee. */
  function DecideRound(config: GlobalConfig, round: Round, oracle: AccountView, slot: U64)
    : (r: Result<Round, Error>)
    requires round.status != Settled
    ensures round.status == Open ==> r == Ok(round.(status := Settled, winner := NoWinner))
    ensures round.status == Locked ==>
      var read := ReadRoundPrice(config, round, oracle, slot);
      && (read.Err? ==> r == Err(read.error))
      && (read.Ok? ==>
            r == Ok(round.(endPrice := read.value.price, status := Settled,
                           winner := DecideWinner(round.upTotal, round.downTotal,
                                                  round.startPrice, read.value.price))))
  {
    if round.status == Open then Ok(round.(status := Settled, winner := NoWinner))
    else
      var price :- ReadRoundPrice(config, round, oracle, slot);
      var winner := DecideWinner(round.upTotal, round.downTotal, round.startPrice, price.price);
      Ok(round.(endPrice := price.price, winner := winner, status := Settled))
  }

  /** An Open round settles without looking at the oracle account at all. */
  lemma SettleOpenIgnoresOracle(
    config: GlobalConfig, round: Round, vaults: Vaults, treasury: U64,
    oracle1: AccountView, oracle2: AccountView, now: I64, slot: U64)
    requires round.status == Open
    ensures SettleRound(config, round, vaults, treasury, oracle1, now, slot)
         == SettleRound(config, round, vaults, treasury, oracle2, now, slot)
  {
  }

  /** The stake a position counts with at claim time: all of it in a push,
      all of it on the winning side, none of it on the losing side. */
  function Weight(round: Round, position: Position): nat
  {
    match round.winner
    case NoWinner => position.amount
    case Won(side) => if position.side == side then position.amount else 0
  }

  /** The pool the counted stakes are measured against: both sides in a push,
      the winning side otherwise. */
  function EligibleTotal(round: Round): nat
  {
    match round.winner
    case NoWinner => round.upTotal + round.downTotal
    case Won(side) => SideTotal(round, side)
  }

  /** The payout computed by `claim` (before any lamports move). */
  function ClaimPayout(round: Round, position: Position): (r: Result<U64, Error>)
    ensures r.Ok? ==>
      r.value == Share(Weight(round, position), round.distributableLamports, EligibleTotal(round))
    ensures r.Ok? && Weight(round, position) <= EligibleTotal(round) ==>
      r.value <= round.distributableLamports
    // the losing side is paid nothing
    ensures round.winner.Won? && position.side != round.winner.side ==> r == Ok(0)
    // failures: the unchecked pool sum of a push, or the `u64` product
    ensures round.winner == NoWinner && round.upTotal + round.downTotal > U64_MAX ==>
      r == Err(OverflowPanic)
    ensures (round.winner == NoWinner ==> round.upTotal + round.downTotal <= U64_MAX) ==>
      (r.Err? <==> Weight(round, position) * round.distributableLamports > U64_MAX
                   && EligibleTotal(round) > 0)
    ensures r.Err? ==> r.error == OverflowPanic || r.error == MathOverflow
    // only the unchecked push sum panics; the product fails with `MathOverflow`
    ensures (round.winner == NoWinner ==> round.upTotal + round.downTotal <= U64_MAX) && r.Err? ==>
      r.error == MathOverflow
  {
    match round.winner
    case NoWinner =>
      // `round.up_total + round.down_total` is a plain `u64` addition
      if round.upTotal + round.downTotal > U64_MAX then Err(OverflowPanic)
      else
        var r := Proportion(position.amount, round.distributableLamports,
                            round.upTotal + round.downTotal);
        ClaimPayoutFacts(position.amount, round.distributableLamports,
                         round.upTotal + round.downTotal);
        r
    case Won(side) =>
      if position.side == side then
        var r := Proportion(position.amount, round.distributableLamports, SideTotal(round, side));
        ClaimPayoutFacts(position.amount, round.distributableLamports, SideTotal(round, side));
        r
      else Ok(0)
  }

  lemma ClaimPayoutFacts(amount: U64, distributable: U64, pool: U64)
    ensures Proportion(amount, distributable, pool).Ok? ==>
      && Proportion(amount, distributable, pool).value == Share(amount, distributable, pool)
      && (amount <= pool ==> Proportion(amount, distributable, pool).value <= distributable)
  {
    if Proportion(amount, distributable, pool).Ok? {
      ProportionIsShare(amount, distributable, pool);
      if amount <= pool {
        ProportionWithinOut(amount, distributable, pool);
      }
    }
  }

  /** The records `claim` writes, the claimant's new balance and the payout. */
  datatype Claimed = Claimed(position: Position, vaults: Vaults, wallet: U64, payout: U64)

  /** `claim`: a one-shot payout of a settled round's position to its owner.
      There is no pause check. */
  function Claim(round: Round, position: Position, vaults: Vaults, wallet: U64)
    : (r: Result<Claimed, Error>)
    ensures round.status != Settled ==> r == Err(RoundNotSettled)
    ensures round.status == Settled && position.claimed ==> r == Err(AlreadyClaimed)
    ensures round.status == Settled && !position.claimed && position.amount == 0 ==>
      r == Err(NothingToClaim)
    ensures round.status == Settled && !position.claimed && position.amount > 0 ==>
      var payout := ClaimPayout(round, position);
      && (payout.Err? ==> r == Err(payout.error))
      && ((payout.Ok? && payout.value <= vaults.up + vaults.down
           && wallet + payout.value <= U64_MAX) ==> r.Ok?)
      && (payout.Ok? && r.Err? ==>
            r == TransferFromVaults(vaults, wallet, payout.value).PropagateFailure())
    ensures r.Ok? ==>
      // the position is spent even when nothing is paid
      && r.value.position == position.(claimed := true)
      && r.value.payout ==
         Share(Weight(round, position), round.distributableLamports, EligibleTotal(round))
      // the payout moves from the vaults to the claimant
      && r.value.wallet == wallet + r.value.payout
      && r.value.vaults.up + r.value.vaults.down + r.value.payout == vaults.up + vaults.down
      && (r.value.payout == 0 ==> r.value.vaults == vaults)
    // a payout is taken by `transfer_from_vaults`, the Up vault first
    ensures r.Ok? && r.value.payout > 0 ==>
      TransferFromVaults(vaults, wallet, r.value.payout) == Ok(Withdrawal(r.value.vaults, r.value.wallet))
  {
    if round.status != Settled then Err(RoundNotSettled)
    else if position.claimed then Err(AlreadyClaimed)
    else if position.amount == 0 then Err(NothingToClaim)
    else
      var payout :- ClaimPayout(round, position);
      var paid :-
        if payout > 0 then TransferFromVaults(vaults, wallet, payout)
        else Ok(Withdrawal(vaults, wallet));
      Ok(Claimed(position.(claimed := true), paid.vaults, paid.to, payout))
  }
}
