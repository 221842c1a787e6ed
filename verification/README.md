# Pancho PvP round engine, in Dafny

A model of the on-chain core of Pancho PvP: a Solana program where users
stake lamports on whether a price goes Up or Down over a round. A round is
created Open, takes stakes until its lock time, is locked at the oracle's
start price, is settled at the oracle's end price (or as a push), and then
each position is claimed once, pro rata from the round's two vaults after
the protocol fee.

Every instruction is modelled as a pure, all-or-nothing step. It takes the
records it reads, plus the clock, the oracle account view and the lamport
balances it moves. It returns either all the records it writes or the error
that aborts the transaction. Integers are the source's fixed widths:
`u8` … `u64` and `i32`/`i64` are subset types of `int`. Checked arithmetic
fails explicitly. A plain `+` that can overflow is modelled as a panic. This
assumes the program is built with overflow checks on, as the Anchor workspace
template sets for release builds. The build settings are not part of this
model.

Modules, one per file:

- `Wrappers`: `Option` and `Result`, with failure propagation.
- `Ints`: the fixed-width integer types and `checked_*`, `saturating_sub`
  and `min`.
- `LittleEndian`: little-endian field reads (`read_u32_le` and the rest),
  their encoders and round trips.
- `Errors`: `PanchoError`, plus the host-level failures (a failed system
  transfer, an overflow panic, a missing account).
- `Records`: `GlobalConfig`, `Round`, `Position`, the vault balances, and the
  side/status/winner codes.
- `LegacyPyth`: the legacy Pyth price-account parser and the oracle read with
  its ordered checks.
- `Payout`: `proportion`, the settlement fee split, and the bound on what all
  claims of a round pay together.
- `VaultTransfer`: `transfer_from_vaults`, which drains the Up vault first and
  the Down vault for the remainder.
- `Instructions`: `initialize_config`, `set_config`, `create_round`,
  `join_round`, `lock_round`, `settle_round` and `claim`.
- `Lifecycle`: a round's state is its config, round, positions, vaults and
  treasury. This module proves an invariant that every instruction
  preserves. The invariant says that stakes add up to the side totals, and
  that after settlement the vaults plus what has been paid equal the
  distributable amount. It derives that a claim is never refused for lack of
  vault liquidity. It also proves that a position is paid at most once,
  whatever instructions run between two claims of it, and that there is at
  most one position per user and side.

## Model

| member | source | states |
|---|---|---|
| Records.SideFromCode | onchain/programs/pancho_pvp/src/lib.rs:6-8 | only the codes 0 (Up) and 1 (Down) name a side, and the side a code names encodes back to that code |
| Records.WinnerCode | onchain/programs/pancho_pvp/src/lib.rs:6-8 | the `winner_side` byte is 255 (`SIDE_NONE`) exactly for a push, and otherwise the code that names the winning side |
| LittleEndian.LeValueOfLeBytes | onchain/programs/pancho_pvp/src/lib.rs:382-400 | reading back the little-endian encoding of a value gives the value |
| LittleEndian.LeBytesOfLeValue | onchain/programs/pancho_pvp/src/lib.rs:382-400 | re-encoding the value of a byte field gives the same bytes, so the field value determines the bytes |
| LittleEndian.LeValueInjective | onchain/programs/pancho_pvp/src/lib.rs:382-400 | two fields of one width hold the same value exactly when they hold the same bytes |
| LittleEndian.ToI32 | onchain/programs/pancho_pvp/src/lib.rs:387-390 | the signed reinterpretation agrees with the unsigned pattern modulo 2^32 |
| LittleEndian.ToI64 | onchain/programs/pancho_pvp/src/lib.rs:392-395 | the signed reinterpretation agrees with the unsigned pattern modulo 2^64 |
| LittleEndian.ReadU32Le | onchain/programs/pancho_pvp/src/lib.rs:382-385 | fails exactly when the 4 bytes run past the buffer; otherwise those bytes are the value's encoding |
| LittleEndian.ReadI32Le | onchain/programs/pancho_pvp/src/lib.rs:387-390 | fails exactly when the 4 bytes run past the buffer; otherwise those bytes encode the value's two's-complement pattern |
| LittleEndian.ReadI64Le | onchain/programs/pancho_pvp/src/lib.rs:392-395 | fails exactly when the 8 bytes run past the buffer; otherwise those bytes encode the value's two's-complement pattern |
| LittleEndian.ReadU64Le | onchain/programs/pancho_pvp/src/lib.rs:397-400 | fails exactly when the 8 bytes run past the buffer; otherwise those bytes are the value's encoding |
| LittleEndian.ReadU32OfEncoded | onchain/programs/pancho_pvp/src/lib.rs:382-385 | a field written as the encoding of `v` reads back as `v` |
| LittleEndian.ReadU64OfEncoded | onchain/programs/pancho_pvp/src/lib.rs:397-400 | a field written as the encoding of `v` reads back as `v` |
| LittleEndian.ReadI32OfEncoded | onchain/programs/pancho_pvp/src/lib.rs:387-390 | a field written as the two's-complement encoding of `x` reads back as `x` |
| LittleEndian.ReadI64OfEncoded | onchain/programs/pancho_pvp/src/lib.rs:392-395 | a field written as the two's-complement encoding of `x` reads back as `x` |
| LegacyPyth.ParseLegacyPythPriceAccount | onchain/programs/pancho_pvp/src/lib.rs:402-423 | parses exactly the buffers of at least 240 bytes with magic 0xa1b2c3d4, version 2 and account type 3; the price, exponent, status and publish slot are the bytes at offsets 208, 20, 224 and 232 |
| LegacyPyth.ParseOfEncoded | onchain/programs/pancho_pvp/src/lib.rs:362-423 | parsing the 240-byte encoding of any price record gives the record back |
| LegacyPyth.ShortBufferRejected | onchain/programs/pancho_pvp/src/lib.rs:403-405 | a buffer shorter than 240 bytes never parses |
| LegacyPyth.ReadLegacyPythPrice | onchain/programs/pancho_pvp/src/lib.rs:327-360 | the checks run in order, each with its own error: account key, owner program, parse failure or non-trading status (both `InvalidOraclePrice`), saturating slot age; success returns the parsed price and exponent |
| LegacyPyth.ReadOfEncodedAccount | onchain/programs/pancho_pvp/src/lib.rs:327-360 | for the bound account owned by the oracle program and holding a trading price, the read succeeds exactly when the publish slot is recent enough, returns that price, and otherwise fails as stale |
| Payout.Proportion | onchain/programs/pancho_pvp/src/lib.rs:315-325 | any zero argument gives 0; otherwise it fails with `MathOverflow` exactly when the `u64` product overflows; a result `v` satisfies `v*in <= n*out < (v+1)*in` |
| Payout.ProportionIsShare | onchain/programs/pancho_pvp/src/lib.rs:315-325 | a successful `proportion` is the exact floor pro-rata share |
| Payout.ProportionWithinOut | onchain/programs/pancho_pvp/src/lib.rs:315-325 | a numerator no larger than the pool gets at most the amount shared out |
| Payout.ProportionOfWhole | onchain/programs/pancho_pvp/src/lib.rs:315-325 | the whole pool gets all of the output, except that an empty input gives 0 and an overflowing product fails |
| Payout.ProportionOverflowsOnLargeStake | onchain/programs/pancho_pvp/src/lib.rs:321-324 | a 5 SOL stake on a winning side of 5 SOL in a 10 SOL pool is owed 10 SOL, yet `proportion` fails with `MathOverflow` |
| Payout.SplitPool | onchain/programs/pancho_pvp/src/lib.rs:238-249 | fails only with `MathOverflow`, and for `fee_bps <= 10 000` exactly when the pool sum or the pool times `fee_bps` overflows; fee plus distributable is the pool; the fee is the floor of pool × bps / 10 000, at most 15% of the pool under a valid config |
| Payout.FeeExample | onchain/programs/pancho_pvp/src/lib.rs:238-249 | 250 bps of a 1 000 000-lamport pool is a 25 000 fee, leaving 975 000 |
| Payout.SharesWithinPool | onchain/programs/pancho_pvp/src/lib.rs:279-290 | stakes that together are at most the pool are paid at most the distributable amount in total: flooring only leaves dust |
| VaultTransfer.TransferFromVaults | onchain/programs/pancho_pvp/src/lib.rs:425-465 | a zero amount touches nothing; success exactly when the two vaults cover the amount and the destination can hold it; otherwise `InsufficientVaultLiquidity` or `MathOverflow`; lamports are conserved; the Up vault pays first and the Down vault only the rest |
| VaultTransfer.CoveredWithdrawalSucceeds | onchain/programs/pancho_pvp/src/lib.rs:459-463 | an amount the two vaults cover is never refused for liquidity |
| Instructions.InitializeConfig | onchain/programs/pancho_pvp/src/lib.rs:18-36 | succeeds exactly when `fee_bps <= 1500`, else `InvalidFeeBps`; records the given fields, unpaused |
| Instructions.SetConfig | onchain/programs/pancho_pvp/src/lib.rs:38-52 | succeeds exactly when `fee_bps <= 1500`, else `InvalidFeeBps`; sets fee, oracle age and pause, and keeps admin, treasury and oracle program |
| Instructions.CreateRound | onchain/programs/pancho_pvp/src/lib.rs:60-112 | paused means `ProtocolPaused`; otherwise succeeds exactly when `now < lock_ts < end_ts`, else `InvalidSchedule`; the new round is Open with no winner, every total zero and the start price, end price and exponent zero; it records the given id, market, feed id, oracle account, lock and end times |
| Instructions.JoinRound | onchain/programs/pancho_pvp/src/lib.rs:114-167 | the full rejection order: pause, stake, side code, status, lock time, payer transfer, side mismatch, claimed, overflow. On success the position grows by the stake on its side, only that side's total grows, and the stake moves from the payer to that side's vault |
| Instructions.LockRound | onchain/programs/pancho_pvp/src/lib.rs:169-200 | rejection order: pause, not Open, before `lock_ts`, `lock_ts + 45` overflow, after `lock_ts + 45` (the window is inclusive), then oracle errors. On success the round is Locked at the oracle price and exponent, and nothing else changes |
| Instructions.DecideWinner | onchain/programs/pancho_pvp/src/lib.rs:226-232 | a push exactly when a side is empty or the price did not move; otherwise Up wins exactly when the end price is higher and Down exactly when it is lower |
| Instructions.SettleRound | onchain/programs/pancho_pvp/src/lib.rs:202-269 | rejection order: pause, before `end_ts`, already settled, a Locked round's oracle error, `MathOverflow` from the fee split, then the fee transfer's own error; it succeeds exactly when the vaults cover the fee and the treasury can take it. An Open round settles as a push (`SIDE_NONE`); a Locked one at the oracle's end price with `DecideWinner`. The fee and distributable amount are `SplitPool`'s. The fee is paid by `transfer_from_vaults` to the treasury, so the Down vault is untouched when the Up vault covers it. Nothing else in the round changes |
| Instructions.SettleFeeSplit | onchain/programs/pancho_pvp/src/lib.rs:238-249 | after a successful settle the pool fits in `u64`, fee plus distributable is the pool, the fee is the floor of pool × `fee_bps` / 10 000, and under a valid config it is at most 15% of the pool |
| Instructions.SettleOpenIgnoresOracle | onchain/programs/pancho_pvp/src/lib.rs:210-213 | settling an Open round does not depend on the oracle account |
| Instructions.ClaimPayout | onchain/programs/pancho_pvp/src/lib.rs:279-290 | a successful payout is the floor share of the distributable amount, by the counted stake over the eligible pool; it is at most the distributable amount; the losing side gets 0; it fails exactly on an overflowing product, with `MathOverflow`, or on the unchecked pool sum of a push, which panics |
| Instructions.Claim | onchain/programs/pancho_pvp/src/lib.rs:271-312 | rejection order: not settled, already claimed, nothing staked, payout overflow, then vault transfer. On success the position is marked claimed even for a zero payout, the payout moves from the vaults to the claimant through `transfer_from_vaults`, so the Up vault pays first, and a zero payout moves nothing |
| Lifecycle.FindPosition | onchain/programs/pancho_pvp/src/lib.rs:564-571 | a position account is addressed by its user and side: the result is a matching position, or there is none |
| Lifecycle.CreatedIsValid | onchain/programs/pancho_pvp/src/lib.rs:60-112 | a freshly created round with empty vaults satisfies the round invariant |
| Lifecycle.StepAdvancesStatus | onchain/programs/pancho_pvp/src/lib.rs:131-200 | status only moves forward; once Locked, the side totals no longer change; once Settled, the round record no longer changes |
| Lifecycle.SetConfigKeepsValid | onchain/programs/pancho_pvp/src/lib.rs:38-52 | a configuration change keeps the round invariant, because the fee cap still holds and a settled round's fee is already fixed |
| Lifecycle.JoinKeepsValid | onchain/programs/pancho_pvp/src/lib.rs:114-167 | a join keeps the side stakes summing to the side totals and the vaults holding exactly the pool |
| Lifecycle.LockKeepsValid | onchain/programs/pancho_pvp/src/lib.rs:169-200 | locking keeps the round invariant: stakes, totals and vaults are untouched |
| Lifecycle.SettleKeepsValid | onchain/programs/pancho_pvp/src/lib.rs:202-269 | after settlement the vaults hold exactly the distributable amount, and the fee is at most 15% |
| Lifecycle.ClaimAccounting | onchain/programs/pancho_pvp/src/lib.rs:271-312 | a claim adds exactly its payout to what has been paid, and the total paid stays within the distributable amount |
| Lifecycle.ClaimKeepsValid | onchain/programs/pancho_pvp/src/lib.rs:271-312 | a claim keeps the round invariant: what leaves the vaults is exactly what is added to the total paid |
| Lifecycle.PaidWithinDistributable | onchain/programs/pancho_pvp/src/lib.rs:238-249 | in a valid settled round the claims paid so far total at most the distributable amount, and the fee is at most 15% of the pool |
| Lifecycle.StepKeepsValid | onchain/programs/pancho_pvp/src/lib.rs:18-312 | every instruction preserves the round invariant |
| Lifecycle.RunKeepsValid | onchain/programs/pancho_pvp/src/lib.rs:18-312 | any sequence of instructions, with failed ones rolled back, preserves the round invariant |
| Lifecycle.ClaimNeverShortOfLiquidity | onchain/programs/pancho_pvp/src/lib.rs:292-301 | in a valid round a claim never fails with `InsufficientVaultLiquidity` |
| Lifecycle.SettleNeverShortOfLiquidity | onchain/programs/pancho_pvp/src/lib.rs:251-256 | in a valid round settlement never fails with `InsufficientVaultLiquidity` |
| Lifecycle.ClaimsAlwaysCovered | onchain/programs/pancho_pvp/src/lib.rs:271-312 | whatever instructions run after `create_round`, no claim is refused for lack of vault liquidity |
| Lifecycle.ClaimSpends | onchain/programs/pancho_pvp/src/lib.rs:275-292 | a successful claim leaves its position in a settled round, found at its address and marked claimed |
| Lifecycle.StepKeepsSpent | onchain/programs/pancho_pvp/src/lib.rs:18-312 | no instruction unspends a claimed position: a settled round stays settled, and another position's claim writes only that position |
| Lifecycle.RunKeepsSpent | onchain/programs/pancho_pvp/src/lib.rs:18-312 | a claimed position stays claimed through any sequence of instructions |
| Lifecycle.ClaimOnce | onchain/programs/pancho_pvp/src/lib.rs:275-276 | after a successful claim, whatever instructions run in between, the same claim fails with `AlreadyClaimed` |
| Lifecycle.FoundIsOnlyMatch | onchain/programs/pancho_pvp/src/lib.rs:564-571 | among uniquely addressed positions, any position with the given user and side is the one `FindPosition` returns |
| Lifecycle.StepKeepsUnique | onchain/programs/pancho_pvp/src/lib.rs:564-571 | every instruction keeps at most one position per user and side: a join writes the found position back or appends a new address, and a claim writes in place |
| Lifecycle.RunKeepsUnique | onchain/programs/pancho_pvp/src/lib.rs:564-571 | any sequence of instructions keeps at most one position per user and side |
| Lifecycle.PositionsUniquelyAddressed | onchain/programs/pancho_pvp/src/lib.rs:564-571 | whatever has run since `create_round`, each user has at most one position per side, and `FindPosition` finds exactly it |

## Where the code and its documentation differ

The model follows the code in each of these cases.

- `lock_round` accepts `now == lock_ts + 45`, so the lock window is inclusive
  at both ends.
- A malformed oracle account and a non-trading price both fail with
  `InvalidOraclePrice`. They are not distinguished.
- `proportion(x, out, x)` is `out` when `out == 0`, or when `x > 0` and
  `x * out` fits in `u64`. An input of 0 with `out > 0` gives 0, and an
  overflowing product fails (`Payout.ProportionOfWhole`).
- The `u64` product in `proportion` overflows for ordinary pool sizes. A claim
  whose stake times the distributable amount exceeds `u64::MAX` fails with
  `MathOverflow`, and that claim can never be paid
  (`Payout.ProportionOverflowsOnLargeStake`). The model keeps the code's
  behaviour.

## Left out

- Anchor account constraints (signers, PDA seeds, `has_one`, the vault and
  position addresses) are assumed to have passed. In particular an invalid
  side code is in practice refused earlier, by the side vault's seeds.
- `set_treasury` is not modelled; it only rewrites one key under an admin
  signature.
- Events (`emit!`) and error messages carry no state and are not modelled.
- Rent: vault and position accounts also hold rent-exempt lamports. Vault
  balances are modelled as stakes alone. This hides a real failure mode.
  `transfer_from_vaults` drains `up_vault.lamports()`, and that balance
  includes the Up vault's rent reserve. Paying Up first can therefore empty
  the Up vault, which deletes the account, and every later claim then fails
  to load it. It can also leave the vault below its rent-exempt minimum,
  which the runtime rejects. `Lifecycle.ClaimsAlwaysCovered` and the other
  liquidity results speak only of `InsufficientVaultLiquidity`, under the
  stakes-only model.
- The clock and the oracle account are parameters (`now`, `slot`, an account
  view of key, owner and data). A failing `try_borrow_data` is not modelled.
- The system-program transfer in `join_round` is reduced to its failure
  condition: the payer lacks the lamports, or the vault balance would
  overflow.
- Arithmetic overflow on a plain `+` is modelled as the `OverflowPanic` error
  (overflow checks on). This covers `lock_ts + 45` and the pool sum in
  `claim`.
- Public keys and the feed id are opaque byte sequences, compared only for
  equality. Their 32-byte width (`Pubkey`, `[u8; 32]`) is not fixed, because
  nothing in the model depends on it.
- `Lifecycle` models one round. It does not track the claimants' and payers'
  wallets, which are given per step. Positions are addressed by user and
  side.
- Concurrency and transaction ordering are outside the model. A run is any
  sequence of instructions.
- Lifecycle.StepAdvancesStatus: states the status order and the frozen
  totals, not the full set of fields each instruction keeps; those are stated
  in `Instructions`.
