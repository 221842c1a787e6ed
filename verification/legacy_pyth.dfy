/** The legacy Pyth price-account reader: `parse_legacy_pyth_price_account`
    decodes the fixed little-endian layout, and `read_legacy_pyth_price`
    checks the account's identity, owner, trading status and staleness before
    handing the price to a round. */
module LegacyPyth {
  import opened Wrappers
  import opened Ints
  import opened LittleEndian
  import opened Errors
  import opened Records

  const MAGIC: U32 := 0xa1b2c3d4
  const VERSION_2: U32 := 2
  const ACCOUNT_TYPE_PRICE: U32 := 3
  const STATUS_TRADING: U32 := 1

  const OFFSET_MAGIC: nat := 0
  const OFFSET_VERSION: nat := 4
  const OFFSET_ACCOUNT_TYPE: nat := 8
  const OFFSET_EXPO: nat := 20
  const OFFSET_AGG_PRICE: nat := 208
  const OFFSET_AGG_STATUS: nat := 224
  const OFFSET_AGG_PUB_SLOT: nat := 232
  const MIN_LEN: nat := 240

  datatype LegacyPythPrice = LegacyPythPrice(price: I64, expo: I32, status: U32, pubSlot: U64)

  /** What a round records from the oracle. */
  datatype OraclePrice = OraclePrice(price: I64, expo: I32)

  /** The oracle account as the instruction sees it: its address, its owning
      program and its data bytes. */
  datatype AccountView = AccountView(key: Pubkey, owner: Pubkey, data: seq<U8>)

  /** The header a price account must carry: magic, version 2, price type. */
  predicate HasPriceHeader(data: seq<U8>)
    requires |data| >= MIN_LEN
  {
    && LeValue(data[0..4]) == MAGIC
    && LeValue(data[4..8]) == VERSION_2
    && LeValue(data[8..12]) == ACCOUNT_TYPE_PRICE
  }

  /** `parse_legacy_pyth_price_account`: `None` for a short buffer or a wrong
      header; otherwise the aggregate price, exponent, status and publish
      slot, each decoded from its own offset. */
  function ParseLegacyPythPriceAccount(data: seq<U8>): (r: Option<LegacyPythPrice>)
    ensures r.Some? <==> |data| >= MIN_LEN && HasPriceHeader(data)
    ensures r.Some? ==> (
      FieldWidths();
      data[208..216] == LeBytes(r.value.price % TWO_64, 8)
      && data[20..24] == LeBytes(r.value.expo % TWO_32, 4)
      && data[224..228] == LeBytes(r.value.status, 4)
      && data[232..240] == LeBytes(r.value.pubSlot, 8))
  {
    // Past the length check every field lies inside the buffer, so none of
    // the source's `?` on a field read can fail.
    if |data| < MIN_LEN then None
    else
      var magic := ReadU32Le(data, OFFSET_MAGIC).value;
      if magic != MAGIC then None
      else
        var version := ReadU32Le(data, OFFSET_VERSION).value;
        if version != VERSION_2 then None
        else
          var accountType := ReadU32Le(data, OFFSET_ACCOUNT_TYPE).value;
          if accountType != ACCOUNT_TYPE_PRICE then None
          else
            FieldWidths();
            LeValueOfLeBytes(magic, 4);
            LeValueOfLeBytes(version, 4);
            LeValueOfLeBytes(accountType, 4);
            Some(LegacyPythPrice(
              ReadI64Le(data, OFFSET_AGG_PRICE).value,
              ReadI32Le(data, OFFSET_EXPO).value,
              ReadU32Le(data, OFFSET_AGG_STATUS).value,
              ReadU64Le(data, OFFSET_AGG_PUB_SLOT).value))
  }

  /** The byte at position `i` of a 240-byte price account holding `p`, with
      every byte outside the decoded fields zero. */
  function LayoutByte(p: LegacyPythPrice, i: nat): U8
    requires i < MIN_LEN
  {
    FieldWidths();
    if i < 4 then LeBytes(MAGIC, 4)[i]
    else if i < 8 then LeBytes(VERSION_2, 4)[i - 4]
    else if i < 12 then LeBytes(ACCOUNT_TYPE_PRICE, 4)[i - 8]
    else if 20 <= i < 24 then LeBytes(p.expo % TWO_32, 4)[i - 20]
    else if 208 <= i < 216 then LeBytes(p.price % TWO_64, 8)[i - 208]
    else if 224 <= i < 228 then LeBytes(p.status, 4)[i - 224]
    else if 232 <= i then LeBytes(p.pubSlot, 8)[i - 232]
    else 0
  }

  /** A minimal price account carrying `p`. */
  function EncodeLegacyPythPrice(p: LegacyPythPrice): (data: seq<U8>)
    ensures |data| == MIN_LEN
  {
    seq(MIN_LEN, i requires 0 <= i < MIN_LEN => LayoutByte(p, i))
  }

  /** Parsing an encoded price account recovers every field. */
  lemma ParseOfEncoded(p: LegacyPythPrice)
    ensures ParseLegacyPythPriceAccount(EncodeLegacyPythPrice(p)) == Some(p)
  {
    FieldWidths();
    var data := EncodeLegacyPythPrice(p);
    assert data[0..4] == LeBytes(MAGIC, 4);
    assert data[4..8] == LeBytes(VERSION_2, 4);
    assert data[8..12] == LeBytes(ACCOUNT_TYPE_PRICE, 4);
    assert data[20..24] == LeBytes(p.expo % TWO_32, 4);
    assert data[208..216] == LeBytes(p.price % TWO_64, 8);
    assert data[224..228] == LeBytes(p.status, 4);
    assert data[232..240] == LeBytes(p.pubSlot, 8);
    ReadU32OfEncoded(data, OFFSET_MAGIC, MAGIC);
    ReadU32OfEncoded(data, OFFSET_VERSION, VERSION_2);
    ReadU32OfEncoded(data, OFFSET_ACCOUNT_TYPE, ACCOUNT_TYPE_PRICE);
    ReadI32OfEncoded(data, OFFSET_EXPO, p.expo);
    ReadI64OfEncoded(data, OFFSET_AGG_PRICE, p.price);
    ReadU32OfEncoded(data, OFFSET_AGG_STATUS, p.status);
    ReadU64OfEncoded(data, OFFSET_AGG_PUB_SLOT, p.pubSlot);
  }

  /** A buffer shorter than the layout never parses, whatever its bytes. */
  lemma ShortBufferRejected(data: seq<U8>)
    requires |data| < MIN_LEN
    ensures ParseLegacyPythPriceAccount(data).None?
  {
  }

  /** The publish slot is too old: the saturating slot difference exceeds
      the bound, so a publish slot ahead of `nowSlot` is never stale. */
  predicate IsStale(nowSlot: U64, pubSlot: U64, maxSlotAge: U64)
  {
    nowSlot > pubSlot + maxSlotAge
  }

  /** `read_legacy_pyth_price`: the checks run in a fixed order, each with its
      own error, except that a malformed account and a non-trading price share
      `InvalidOraclePrice`. */
  function ReadLegacyPythPrice(
    oracle: AccountView,
    expectedOracleKey: Pubkey,
    nowSlot: U64,
    maxSlotAge: U64,
    expectedOracleProgram: Pubkey): (r: Result<OraclePrice, Error>)
    ensures oracle.key != expectedOracleKey ==> r == Err(UnexpectedOracleAccount)
    ensures oracle.key == expectedOracleKey && oracle.owner != expectedOracleProgram ==>
      r == Err(InvalidOracleOwner)
    ensures oracle.key == expectedOracleKey && oracle.owner == expectedOracleProgram ==>
      var parsed := ParseLegacyPythPriceAccount(oracle.data);
      && (parsed.None? || parsed.value.status != STATUS_TRADING ==> r == Err(InvalidOraclePrice))
      && (parsed.Some? && parsed.value.status == STATUS_TRADING ==>
            if IsStale(nowSlot, parsed.value.pubSlot, maxSlotAge)
            then r == Err(StaleOraclePrice)
            else r == Ok(OraclePrice(parsed.value.price, parsed.value.expo)))
  {
    if oracle.key != expectedOracleKey then Err(UnexpectedOracleAccount)
    else if oracle.owner != expectedOracleProgram then Err(InvalidOracleOwner)
    else
      var parsed :- ParseLegacyPythPriceAccount(oracle.data).OkOr(InvalidOraclePrice);
      if parsed.status != STATUS_TRADING then Err(InvalidOraclePrice)
      else if SaturatingSub(nowSlot, parsed.pubSlot) > maxSlotAge then Err(StaleOraclePrice)
      else Ok(OraclePrice(parsed.price, parsed.expo))
  }

  /** A bound, program-owned account with a trading price succeeds exactly
      when it is fresh, and returns the encoded price and exponent. */
  lemma ReadOfEncodedAccount(
    key: Pubkey, program: Pubkey, p: LegacyPythPrice, nowSlot: U64, maxSlotAge: U64)
    requires p.status == STATUS_TRADING
    ensures
      var r := ReadLegacyPythPrice(
        AccountView(key, program, EncodeLegacyPythPrice(p)), key, nowSlot, maxSlotAge, program);
      && (r.Ok? <==> nowSlot <= p.pubSlot + maxSlotAge)
      && (r.Ok? ==> r.value == OraclePrice(p.price, p.expo))
      && (r.Err? ==> r.error == StaleOraclePrice)
  {
    ParseOfEncoded(p);
  }
}
