/** `transfer_from_vaults`: pay `amount` lamports out of a round's two vaults
    to a destination account, draining the Up vault first and the Down vault
    for the remainder, and failing when the two together cannot cover it. */
module VaultTransfer {
  import opened Wrappers
  import opened Ints
  import opened Errors
  import opened Records

  datatype Withdrawal = Withdrawal(vaults: Vaults, to: U64)

  function TransferFromVaults(vaults: Vaults, to: U64, amount: U64): (r: Result<Withdrawal, Error>)
    // a zero amount touches nothing
    ensures amount == 0 ==> r == Ok(Withdrawal(vaults, to))
    // success exactly when the vaults cover the amount and the destination
    // can hold it
    ensures r.Ok? <==>
      amount == 0 || (vaults.up + vaults.down >= amount && to + amount <= U64_MAX)
    ensures r.Err? ==>
      if vaults.up + vaults.down < amount && to + vaults.up + vaults.down <= U64_MAX
      then r.error == InsufficientVaultLiquidity
      else r.error == MathOverflow
    // value moves, it is not created or destroyed
    ensures r.Ok? ==>
      && r.value.vaults.up + r.value.vaults.down + amount == vaults.up + vaults.down
      && r.value.to == to + amount
    // the Up vault pays first, the Down vault only what the Up vault cannot
    ensures r.Ok? && amount <= vaults.up ==>
      r.value.vaults == Vaults(vaults.up - amount, vaults.down)
    ensures r.Ok? && amount > vaults.up ==> r.value.vaults.up == 0
  {
    if amount == 0 then Ok(Withdrawal(vaults, to))
    else
      // The vault debits and the `remaining` updates subtract at most what is
      // there, so their `checked_sub` cannot fail; only the credits to the
      // destination can overflow.
      var takeUp := Min(vaults.up, amount);
      var afterUp :- Credit(to, takeUp);
      var up := vaults.up - takeUp;
      var remaining := amount - takeUp;
      var takeDown := if remaining > 0 then Min(vaults.down, remaining) else 0;
      var afterDown :- Credit(afterUp, takeDown);
      var down := vaults.down - takeDown;
      if remaining - takeDown != 0 then Err(InsufficientVaultLiquidity)
      else Ok(Withdrawal(Vaults(up, down), afterDown))
  }

  /** Add `take` lamports to a balance, skipping a zero move as the source
      does. */
  function Credit(balance: U64, take: U64): (r: Result<U64, Error>)
    ensures r.Ok? <==> balance + take <= U64_MAX
    ensures r.Ok? ==> r.value == balance + take
    ensures r.Err? ==> r.error == MathOverflow
  {
    if take > 0 then CheckedAdd(balance, take).OkOr(MathOverflow) else Ok(balance)
  }

  /** A withdrawal a full pair of vaults can cover, to a destination with room,
      never reports a liquidity shortfall. */
  lemma CoveredWithdrawalSucceeds(vaults: Vaults, to: U64, amount: U64)
    requires amount <= vaults.up + vaults.down
    ensures TransferFromVaults(vaults, to, amount) != Err(InsufficientVaultLiquidity)
  {
  }
}
