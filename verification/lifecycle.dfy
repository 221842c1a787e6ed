/** One round from creation onwards: the round record, every position opened
    on it, its two vaults and the treasury balance, driven by the program's
    instructions. `Valid` is the round's bookkeeping invariant: the positions
    add up to the side totals, and the vaults hold exactly the stakes until
    settlement and afterwards the distributable amount less what claims have
    already paid. From it follows that the liquidity backstop of
    `transfer_from_vaults` is never what stops a claim or a settle. */
module Lifecycle {
  import opened Wrappers
  import opened Ints
  import opened Errors
  import opened Records
  import opened LegacyPyth
  import opened Payout
  import opened VaultTransfer
  import opened Instructions

  datatype RoundState = RoundState(
    config: GlobalConfig,
    roundKey: Pubkey,
    round: Round,
    positions: seq<Position>,
    vaults: Vaults,
    treasury: U64)

  /** A position is addressed by its round, user and side; within one round,
      by user and side. */
  function FindPosition(positions: seq<Position>, user: Pubkey, side: Side): (found: Option<nat>)
    ensures found.Some? ==>
      found.value < |positions|
      && positions[found.value].user == user && positions[found.value].side == side
    ensures found.None? ==>
      forall i :: 0 <= i < |positions| ==>
        !(positions[i].user == user && positions[i].side == side)
  {
    if |positions| == 0 then None
    else if positions[|positions| - 1].user == user && positions[|positions| - 1].side == side
    then Some(|positions| - 1)
    else FindPosition(positions[..|positions| - 1], user, side)
  }

  /** Replacing a position by one with the same address does not move it. */
  lemma {:induction false} FindAfterUpdate(
    positions: seq<Position>, i: nat, q: Position, user: Pubkey, side: Side)
    requires i < |positions|
    requires q.user == positions[i].user && q.side == positions[i].side
    ensures FindPosition(positions[i := q], user, side) == FindPosition(positions, user, side)
  {
    var last := |positions| - 1;
    if |positions| > 0 && i < last {
      assert positions[i := q][..last] == positions[..last][i := q];
      FindAfterUpdate(positions[..last], i, q, user, side);
    } else if |positions| > 0 {
      assert positions[i := q][..last] == positions[..last];
    }
  }

  /** The stakes on `side`, position by position (0 for the other side). */
  function SideStakes(positions: seq<Position>, side: Side): (stakes: seq<nat>)
    ensures |stakes| == |positions|
  {
    seq(|positions|, i requires 0 <= i < |positions| =>
      if positions[i].side == side then positions[i].amount else 0)
  }

  /** The stake each position counts with at claim time. */
  function Weights(round: Round, positions: seq<Position>): (weights: seq<nat>)
    ensures |weights| == |positions|
  {
    seq(|positions|, i requires 0 <= i < |positions| => Weight(round, positions[i]))
  }

  /** The same, for the positions already claimed; 0 for the others. */
  function ClaimedWeights(round: Round, positions: seq<Position>): (weights: seq<nat>)
    ensures |weights| == |positions|
  {
    seq(|positions|, i requires 0 <= i < |positions| =>
      if positions[i].claimed then Weight(round, positions[i]) else 0)
  }

  /** What the claims made so far have paid out. */
  function PaidOut(s: RoundState): nat
  {
    Sum(Shares(ClaimedWeights(s.round, s.positions), s.round.distributableLamports,
               EligibleTotal(s.round)))
  }

  predicate NoneClaimed(positions: seq<Position>)
  {
    forall i :: 0 <= i < |positions| ==> !positions[i].claimed
  }

  /** The bookkeeping invariant of a round. */
  predicate Valid(s: RoundState)
  {
    && ConfigValid(s.config)
    && Sum(SideStakes(s.positions, Up)) == s.round.upTotal
    && Sum(SideStakes(s.positions, Down)) == s.round.downTotal
    && (s.round.status != Settled ==>
          && NoneClaimed(s.positions)
          && s.vaults.up + s.vaults.down == s.round.upTotal + s.round.downTotal)
    && (s.round.status == Settled ==>
          && s.round.upTotal + s.round.downTotal <= U64_MAX
          && s.round.feeLamports + s.round.distributableLamports
             == s.round.upTotal + s.round.downTotal
          && s.round.feeLamports * 100 <= (s.round.upTotal + s.round.downTotal) * 15
          && s.vaults.up + s.vaults.down + PaidOut(s) == s.round.distributableLamports)
  }

  /** A round just created by `create_round`, with empty vaults. */
  function Created(config: GlobalConfig, roundKey: Pubkey, round: Round, treasury: U64): RoundState
  {
    RoundState(config, roundKey, round, [], Vaults(0, 0), treasury)
  }

  lemma CreatedIsValid(
    config: GlobalConfig, market: U8, roundId: I64, lockTs: I64, endTs: I64,
    feedId: seq<U8>, oraclePriceAccount: Pubkey, now: I64, roundKey: Pubkey, treasury: U64)
    requires ConfigValid(config)
    requires CreateRound(config, market, roundId, lockTs, endTs, feedId, oraclePriceAccount, now).Ok?
    ensures Valid(Created(config, roundKey,
                          CreateRound(config, market, roundId, lockTs, endTs, feedId,
                                      oraclePriceAccount, now).value,
                          treasury))
  {
  }

  /** One instruction addressed to the round, with the inputs the
      environment supplies: the payer's or claimant's lamport balance, the
      clock and the oracle account. */
  datatype Action =
    | SetConfigAction(feeBps: U16, oracleMaxAgeSec: U32, paused: bool)
    | JoinAction(user: Pubkey, side: Side, wallet: U64, lamports: U64, now: I64)
    | LockAction(oracle: AccountView, now: I64, slot: U64)
    | SettleAction(oracle: AccountView, now: I64, slot: U64)
    | ClaimAction(user: Pubkey, side: Side, wallet: U64)

  /** The position `join_round` works on: the existing one, or a freshly
      created all-zero account. */
  function JoinTarget(s: RoundState, user: Pubkey, side: Side): (target: Position)
    ensures FindPosition(s.positions, user, side).None? ==> target == FRESH_POSITION
    ensures FindPosition(s.positions, user, side).Some? ==>
      target.user == user && target.side == side
  {
    match FindPosition(s.positions, user, side)
    case Some(i) => s.positions[i]
    case None => FRESH_POSITION
  }

  /** Apply one instruction to the round's state; a failure aborts it and
      changes nothing. */
  function Step(s: RoundState, a: Action): Result<RoundState, Error>
  {
    match a
    case SetConfigAction(feeBps, oracleMaxAgeSec, paused) =>
      var config :- SetConfig(s.config, feeBps, oracleMaxAgeSec, paused);
      Ok(s.(config := config))
    case JoinAction(user, side, wallet, lamports, now) => JoinStep(s, user, side, wallet, lamports, now)
    case LockAction(oracle, now, slot) =>
      var round :- LockRound(s.config, s.round, oracle, now, slot);
      Ok(s.(round := round))
    case SettleAction(oracle, now, slot) => SettleStep(s, oracle, now, slot)
    case ClaimAction(user, side, wallet) => ClaimStep(s, user, side, wallet)
  }

  /** `join_round` on the position of `user` on `side`. */
  function JoinStep(s: RoundState, user: Pubkey, side: Side, wallet: U64, lamports: U64, now: I64)
    : Result<RoundState, Error>
  {
    var found := FindPosition(s.positions, user, side);
    var joined :- JoinRound(s.config, s.round, s.roundKey, JoinTarget(s, user, side), s.vaults,
                            user, wallet, SideCode(side), lamports, now);
    var positions :=
      if found.Some? then s.positions[found.value := joined.position]
      else s.positions + [joined.position];
    Ok(s.(round := joined.round, positions := positions, vaults := joined.vaults))
  }

  /** `settle_round` on the round and its vaults. */
  function SettleStep(s: RoundState, oracle: AccountView, now: I64, slot: U64)
    : Result<RoundState, Error>
  {
    var settled :- SettleRound(s.config, s.round, s.vaults, s.treasury, oracle, now, slot);
    Ok(s.(round := settled.round, vaults := settled.vaults, treasury := settled.treasury))
  }

  /** `claim` on the position of `user` on `side`, which must exist. */
  function ClaimStep(s: RoundState, user: Pubkey, side: Side, wallet: U64)
    : Result<RoundState, Error>
  {
    var found := FindPosition(s.positions, user, side);
    if found.None? then Err(AccountNotInitialized)
    else
      var claimed :- Claim(s.round, s.positions[found.value], s.vaults, wallet);
      Ok(s.(positions := s.positions[found.value := claimed.position], vaults := claimed.vaults))
  }

  /** Apply the instructions in order; a failing one changes nothing. */
  function Run(s: RoundState, actions: seq<Action>): RoundState
    decreases |actions|
  {
    if |actions| == 0 then s
    else
      var next := Step(s, actions[0]);
      Run(if next.Ok? then next.value else s, actions[1..])
  }

  // ---------------------------------------------------------------------
  // The status only moves forward, and the totals freeze once it leaves Open.

  lemma StepAdvancesStatus(s: RoundState, a: Action)
    ensures Step(s, a).Ok? ==>
      StatusCode(Step(s, a).value.round.status) >= StatusCode(s.round.status)
    ensures Step(s, a).Ok? && s.round.status == Settled ==> Step(s, a).value.round == s.round
    ensures Step(s, a).Ok? && s.round.status != Open ==>
      && Step(s, a).value.round.upTotal == s.round.upTotal
      && Step(s, a).value.round.downTotal == s.round.downTotal
  {
  }

  // ---------------------------------------------------------------------
  // Every instruction keeps the invariant.

  lemma SetConfigKeepsValid(s: RoundState, feeBps: U16, oracleMaxAgeSec: U32, paused: bool)
    requires Valid(s)
    ensures var next := Step(s, SetConfigAction(feeBps, oracleMaxAgeSec, paused));
      next.Ok? ==> Valid(next.value)
  {
  }

  lemma JoinKeepsValid(
    s: RoundState, user: Pubkey, side: Side, wallet: U64, lamports: U64, now: I64)
    requires Valid(s)
    ensures var next := Step(s, JoinAction(user, side, wallet, lamports, now));
      next.Ok? ==> Valid(next.value)
  {
    assert Step(s, JoinAction(user, side, wallet, lamports, now))
        == JoinStep(s, user, side, wallet, lamports, now);
    if JoinStep(s, user, side, wallet, lamports, now).Ok? {
      var found := FindPosition(s.positions, user, side);
      var target := JoinTarget(s, user, side);
      var joined := JoinRound(s.config, s.round, s.roundKey, target, s.vaults,
                              user, wallet, SideCode(side), lamports, now).value;
      var s' := JoinStep(s, user, side, wallet, lamports, now).value;
      assert SideFromCode(SideCode(side)) == Some(side);
      PlaceStake(s.positions, found, joined.position, side, lamports);
      assert s'.round.status == Open;
    }
  }

  /** Writing a position grown by `grown` on `side` back into its slot, or
      appending it when it is new, grows that side's stakes by `grown` and
      leaves the other side's alone. */
  lemma PlaceStake(
    positions: seq<Position>, found: Option<nat>, q: Position, side: Side, grown: nat)
    requires NoneClaimed(positions) && q.side == side && !q.claimed
    requires found.Some? ==>
      found.value < |positions| && positions[found.value].side == side
      && q.amount == positions[found.value].amount + grown
    requires found.None? ==> q.amount == grown
    ensures var positions' := if found.Some? then positions[found.value := q] else positions + [q];
      && NoneClaimed(positions')
      && Sum(SideStakes(positions', side)) == Sum(SideStakes(positions, side)) + grown
      && Sum(SideStakes(positions', Other(side))) == Sum(SideStakes(positions, Other(side)))
  {
    var other := Other(side);
    if found.Some? {
      var i := found.value;
      var positions' := positions[i := q];
      assert SideStakes(positions', side) == SideStakes(positions, side)[i := q.amount];
      assert SideStakes(positions', other) == SideStakes(positions, other);
      SumUpdate(SideStakes(positions, side), i, q.amount);
    } else {
      var positions' := positions + [q];
      assert SideStakes(positions', side) == SideStakes(positions, side) + [q.amount];
      assert SideStakes(positions', other) == SideStakes(positions, other) + [0];
      SumAppend(SideStakes(positions, side), q.amount);
      SumAppend(SideStakes(positions, other), 0);
    }
  }

  lemma LockKeepsValid(s: RoundState, oracle: AccountView, now: I64, slot: U64)
    requires Valid(s)
    ensures var next := Step(s, LockAction(oracle, now, slot));
      next.Ok? ==> Valid(next.value)
  {
  }

  /** Before any claim the payouts made total zero. */
  lemma {:induction false} NothingPaidBeforeClaims(s: RoundState)
    requires NoneClaimed(s.positions)
    ensures PaidOut(s) == 0
  {
    var shares := Shares(ClaimedWeights(s.round, s.positions), s.round.distributableLamports,
                         EligibleTotal(s.round));
    assert forall i :: 0 <= i < |shares| ==> shares[i] == 0;
    SumZero(shares);
  }

  lemma SettleKeepsValid(s: RoundState, oracle: AccountView, now: I64, slot: U64)
    requires Valid(s)
    ensures var next := Step(s, SettleAction(oracle, now, slot));
      next.Ok? ==> Valid(next.value)
  {
    if Step(s, SettleAction(oracle, now, slot)).Ok? {
      var s' := Step(s, SettleAction(oracle, now, slot)).value;
      assert s'.positions == s.positions;
      NothingPaidBeforeClaims(s');
    }
  }

  /** The stakes that count at claim time add up to the pool they are
      measured against. */
  lemma WeightsTotal(s: RoundState)
    requires Valid(s)
    ensures Sum(Weights(s.round, s.positions)) == EligibleTotal(s.round)
  {
    var weights := Weights(s.round, s.positions);
    match s.round.winner
    case NoWinner =>
      SumAdd(SideStakes(s.positions, Up), SideStakes(s.positions, Down), weights);
    case Won(side) =>
      assert weights == SideStakes(s.positions, side);
  }

  /** A claim of the unclaimed position `i` adds exactly its payout to what
      has been paid. */
  lemma {:induction false} ClaimAddsPayout(s: RoundState, i: nat)
    requires i < |s.positions| && !s.positions[i].claimed
    ensures
      var p := s.positions[i];
      var payout := Share(Weight(s.round, p), s.round.distributableLamports, EligibleTotal(s.round));
      PaidOut(s.(positions := s.positions[i := p.(claimed := true)])) == PaidOut(s) + payout
  {
    var p := s.positions[i];
    var d, e := s.round.distributableLamports, EligibleTotal(s.round);
    var before := ClaimedWeights(s.round, s.positions);
    var after := ClaimedWeights(s.round, s.positions[i := p.(claimed := true)]);
    assert after == before[i := Weight(s.round, p)];
    assert Shares(after, d, e) == Shares(before, d, e)[i := Share(Weight(s.round, p), d, e)];
    SumUpdate(Shares(before, d, e), i, Share(Weight(s.round, p), d, e));
  }

  /** Whatever has been claimed, in a valid round the total paid stays
      within the distributable amount. */
  lemma {:induction false} PaidWithinPool(s: RoundState, positions: seq<Position>)
    requires Valid(s)
    requires |positions| == |s.positions|
    requires forall k :: 0 <= k < |positions| ==>
      positions[k] == s.positions[k].(claimed := positions[k].claimed)
    ensures PaidOut(s.(positions := positions)) <= s.round.distributableLamports
  {
    var d, e := s.round.distributableLamports, EligibleTotal(s.round);
    var claimed := ClaimedWeights(s.round, positions);
    var weights := Weights(s.round, s.positions);
    SumMono(claimed, weights);
    WeightsTotal(s);
    SharesWithinPool(claimed, d, e);
  }

  /** The accounting of a claim of the unclaimed position `i`: what has been
      paid afterwards is what had been paid before plus this payout, and it
      stays within the distributable amount. */
  lemma {:induction false} ClaimAccounting(s: RoundState, i: nat)
    requires Valid(s) && s.round.status == Settled
    requires i < |s.positions| && !s.positions[i].claimed
    ensures
      var p := s.positions[i];
      var payout := Share(Weight(s.round, p), s.round.distributableLamports, EligibleTotal(s.round));
      var s' := s.(positions := s.positions[i := p.(claimed := true)]);
      && PaidOut(s') == PaidOut(s) + payout
      && PaidOut(s') <= s.round.distributableLamports
  {
    ClaimAddsPayout(s, i);
    PaidWithinPool(s, s.positions[i := s.positions[i].(claimed := true)]);
  }

  lemma ClaimKeepsValid(s: RoundState, user: Pubkey, side: Side, wallet: U64)
    requires Valid(s)
    ensures var next := Step(s, ClaimAction(user, side, wallet));
      next.Ok? ==> Valid(next.value)
  {
    if Step(s, ClaimAction(user, side, wallet)).Ok? {
      var i := FindPosition(s.positions, user, side).value;
      var p := s.positions[i];
      var s' := Step(s, ClaimAction(user, side, wallet)).value;
      assert s'.positions == s.positions[i := p.(claimed := true)];
      assert SideStakes(s'.positions, Up) == SideStakes(s.positions, Up);
      assert SideStakes(s'.positions, Down) == SideStakes(s.positions, Down);
      ClaimAccounting(s, i);
      assert s'.round == s.round;
    }
  }

  lemma StepKeepsValid(s: RoundState, a: Action)
    requires Valid(s)
    ensures Step(s, a).Ok? ==> Valid(Step(s, a).value)
  {
    match a
    case SetConfigAction(feeBps, oracleMaxAgeSec, paused) =>
      SetConfigKeepsValid(s, feeBps, oracleMaxAgeSec, paused);
    case JoinAction(user, side, wallet, lamports, now) =>
      JoinKeepsValid(s, user, side, wallet, lamports, now);
    case LockAction(oracle, now, slot) =>
      LockKeepsValid(s, oracle, now, slot);
    case SettleAction(oracle, now, slot) =>
      SettleKeepsValid(s, oracle, now, slot);
    case ClaimAction(user, side, wallet) =>
      ClaimKeepsValid(s, user, side, wallet);
  }

  lemma {:induction false} RunKeepsValid(s: RoundState, actions: seq<Action>)
    requires Valid(s)
    ensures Valid(Run(s, actions))
    decreases |actions|
  {
    if |actions| > 0 {
      var next := Step(s, actions[0]);
      if next.Ok? {
        StepKeepsValid(s, actions[0]);
      }
      RunKeepsValid(if next.Ok? then next.value else s, actions[1..]);
    }
  }

  // ---------------------------------------------------------------------
  // Consequences.

  /** In a valid round, the claims paid so far never exceed what was left to
      distribute after the fee. */
  lemma PaidWithinDistributable(s: RoundState)
    requires Valid(s) && s.round.status == Settled
    ensures PaidOut(s) <= s.round.distributableLamports
    ensures s.round.feeLamports * 100 <= (s.round.upTotal + s.round.downTotal) * 15
  {
  }

  /** A claim on a valid round never fails for lack of vault liquidity. */
  lemma ClaimNeverShortOfLiquidity(s: RoundState, user: Pubkey, side: Side, wallet: U64)
    requires Valid(s)
    ensures Step(s, ClaimAction(user, side, wallet)) != Err(InsufficientVaultLiquidity)
  {
    var found := FindPosition(s.positions, user, side);
    if found.Some? && s.round.status == Settled && !s.positions[found.value].claimed
       && s.positions[found.value].amount > 0 {
      var i := found.value;
      var p := s.positions[i];
      var payout := ClaimPayout(s.round, p);
      if payout.Ok? {
        ClaimAccounting(s, i);
        assert payout.value <= s.vaults.up + s.vaults.down;
        CoveredWithdrawalSucceeds(s.vaults, wallet, payout.value);
      }
    }
  }

  /** Settling a valid round never fails for lack of vault liquidity. */
  lemma SettleNeverShortOfLiquidity(s: RoundState, oracle: AccountView, now: I64, slot: U64)
    requires Valid(s)
    ensures Step(s, SettleAction(oracle, now, slot)) != Err(InsufficientVaultLiquidity)
  {
    var split := SplitPool(s.round.upTotal, s.round.downTotal, s.config.feeBps);
    if split.Ok? && s.round.status != Settled {
      CoveredWithdrawalSucceeds(s.vaults, s.treasury, split.value.fee);
    }
  }

  /** Whatever instructions have run since `create_round`, no claim is ever
      refused for lack of liquidity. */
  lemma ClaimsAlwaysCovered(
    config: GlobalConfig, roundKey: Pubkey, round: Round, treasury: U64,
    actions: seq<Action>, user: Pubkey, side: Side, wallet: U64)
    requires ConfigValid(config)
    requires round.status == Open && round.upTotal == 0 && round.downTotal == 0
    ensures
      Step(Run(Created(config, roundKey, round, treasury), actions), ClaimAction(user, side, wallet))
      != Err(InsufficientVaultLiquidity)
  {
    RunKeepsValid(Created(config, roundKey, round, treasury), actions);
    ClaimNeverShortOfLiquidity(Run(Created(config, roundKey, round, treasury), actions),
                               user, side, wallet);
  }

  // ---------------------------------------------------------------------
  // A position account is addressed by its user and side: there is at most
  // one per pair.

  predicate UniquelyAddressed(positions: seq<Position>)
  {
    forall i, j :: 0 <= i < j < |positions| ==>
      !(positions[i].user == positions[j].user && positions[i].side == positions[j].side)
  }

  /** Among uniquely addressed positions, the one `FindPosition` returns is
      the only match. */
  lemma FoundIsOnlyMatch(positions: seq<Position>, user: Pubkey, side: Side, k: nat)
    requires UniquelyAddressed(positions)
    requires k < |positions| && positions[k].user == user && positions[k].side == side
    ensures FindPosition(positions, user, side) == Some(k)
  {
  }

  /** Every instruction keeps the addressing unique: a join either writes the
      found position back in place or appends a new address, and a claim
      writes the found position back in place. */
  lemma StepKeepsUnique(s: RoundState, a: Action)
    requires UniquelyAddressed(s.positions)
    ensures Step(s, a).Ok? ==> UniquelyAddressed(Step(s, a).value.positions)
  {
    match a
    case SetConfigAction(_, _, _) =>
    case JoinAction(user, side, wallet, lamports, now) =>
      assert Step(s, a) == JoinStep(s, user, side, wallet, lamports, now);
      if JoinStep(s, user, side, wallet, lamports, now).Ok? {
        var found := FindPosition(s.positions, user, side);
        var joined := JoinRound(s.config, s.round, s.roundKey, JoinTarget(s, user, side), s.vaults,
                                user, wallet, SideCode(side), lamports, now).value;
        assert SideFromCode(SideCode(side)) == Some(side);
        assert joined.position.user == user && joined.position.side == side;
      }
    case LockAction(_, _, _) =>
    case SettleAction(_, _, _) =>
    case ClaimAction(user, side, wallet) =>
      assert Step(s, a) == ClaimStep(s, user, side, wallet);
  }

  lemma {:induction false} RunKeepsUnique(s: RoundState, actions: seq<Action>)
    requires UniquelyAddressed(s.positions)
    ensures UniquelyAddressed(Run(s, actions).positions)
    decreases |actions|
  {
    if |actions| > 0 {
      StepKeepsUnique(s, actions[0]);
      var next := Step(s, actions[0]);
      RunKeepsUnique(if next.Ok? then next.value else s, actions[1..]);
    }
  }

  /** Whatever instructions have run since `create_round`, each user has at
      most one position per side, and `FindPosition` finds exactly it. */
  lemma PositionsUniquelyAddressed(
    config: GlobalConfig, roundKey: Pubkey, round: Round, treasury: U64, actions: seq<Action>,
    user: Pubkey, side: Side, k: nat)
    ensures var positions := Run(Created(config, roundKey, round, treasury), actions).positions;
      && UniquelyAddressed(positions)
      && (k < |positions| && positions[k].user == user && positions[k].side == side ==>
            FindPosition(positions, user, side) == Some(k))
  {
    RunKeepsUnique(Created(config, roundKey, round, treasury), actions);
    var positions := Run(Created(config, roundKey, round, treasury), actions).positions;
    if k < |positions| && positions[k].user == user && positions[k].side == side {
      FoundIsOnlyMatch(positions, user, side, k);
    }
  }

  // ---------------------------------------------------------------------
  // A position is paid at most once.

  /** The position of `user` on `side` exists in a settled round and has
      been claimed. */
  predicate Spent(s: RoundState, user: Pubkey, side: Side)
  {
    && s.round.status == Settled
    && FindPosition(s.positions, user, side).Some?
    && s.positions[FindPosition(s.positions, user, side).value].claimed
  }

  /** A successful claim spends its position. */
  lemma ClaimSpends(s: RoundState, user: Pubkey, side: Side, wallet: U64)
    ensures var next := Step(s, ClaimAction(user, side, wallet));
      next.Ok? ==> Spent(next.value, user, side)
  {
    assert Step(s, ClaimAction(user, side, wallet)) == ClaimStep(s, user, side, wallet);
    if ClaimStep(s, user, side, wallet).Ok? {
      var i := FindPosition(s.positions, user, side).value;
      FindAfterUpdate(s.positions, i, s.positions[i].(claimed := true), user, side);
    }
  }

  /** No instruction unspends a position: a settled round never reopens, and
      a claim of another position writes only that one's slot. */
  lemma StepKeepsSpent(s: RoundState, a: Action, user: Pubkey, side: Side)
    requires Spent(s, user, side)
    ensures Step(s, a).Ok? ==> Spent(Step(s, a).value, user, side)
  {
    match a
    case SetConfigAction(_, _, _) =>
    case JoinAction(_, _, _, _, _) =>
    case LockAction(_, _, _) =>
    case SettleAction(_, _, _) =>
    case ClaimAction(user', side', wallet) =>
      assert Step(s, a) == ClaimStep(s, user', side', wallet);
      if ClaimStep(s, user', side', wallet).Ok? {
        var j := FindPosition(s.positions, user', side').value;
        var q := ClaimStep(s, user', side', wallet).value.positions[j];
        assert ClaimStep(s, user', side', wallet).value.positions == s.positions[j := q];
        FindAfterUpdate(s.positions, j, q, user, side);
      }
  }

  lemma {:induction false} RunKeepsSpent(
    s: RoundState, actions: seq<Action>, user: Pubkey, side: Side)
    requires Spent(s, user, side)
    ensures Spent(Run(s, actions), user, side)
    decreases |actions|
  {
    if |actions| > 0 {
      StepKeepsSpent(s, actions[0], user, side);
      var next := Step(s, actions[0]);
      RunKeepsSpent(if next.Ok? then next.value else s, actions[1..], user, side);
    }
  }

  /** A position is paid at most once: after a successful claim, whatever
      instructions run next, the same claim is refused. */
  lemma ClaimOnce(
    s: RoundState, user: Pubkey, side: Side, wallet: U64, actions: seq<Action>, wallet': U64)
    ensures var first := Step(s, ClaimAction(user, side, wallet));
      first.Ok? ==>
        Step(Run(first.value, actions), ClaimAction(user, side, wallet')) == Err(AlreadyClaimed)
  {
    if Step(s, ClaimAction(user, side, wallet)).Ok? {
      var first := Step(s, ClaimAction(user, side, wallet)).value;
      ClaimSpends(s, user, side, wallet);
      RunKeepsSpent(first, actions, user, side);
      var later := Run(first, actions);
      assert Step(later, ClaimAction(user, side, wallet')) == ClaimStep(later, user, side, wallet');
    }
  }
}
