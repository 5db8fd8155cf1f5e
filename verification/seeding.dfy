/** Seed derivation of `SecureRng` (near-sdk/src/random.rs, lines 53-159).

    The host environment (`env::*`) is an explicit `Context` record and the
    two foreign primitives, SHA-256 and the ChaCha20 keystream, are the
    fields of a `Crypto` record; nothing is assumed about either beyond
    its type.  An incremental SHA-256 computation (`update` calls followed
    by `finalize`) is the hash of the concatenated updates. */
module Seeding {
  import opened MachineInts
  import opened Results
  import opened Stream

  /** What the host reports to a contract call. */
  datatype Context = Context(
    randomSeed: Seed,            // `env::random_seed_array()`: the block's VRF output
    currentAccountId: Bytes,     // `env::current_account_id().as_bytes()`
    predecessorAccountId: Bytes, // `env::predecessor_account_id().as_bytes()`
    blockTimestamp: u64,         // `env::block_timestamp()`
    blockHeight: u64,            // `env::block_index()`, which the derivation never reads
    prepaidGas: u64)             // `env::prepaid_gas().as_gas()`

  /** The foreign cryptographic primitives. */
  datatype Crypto = Crypto(sha256: Bytes -> Seed, chacha20: Keystream)

  /** The 7-bit ASCII encoding of a string. */
  function Ascii(s: string): (r: Bytes)
    requires forall i :: 0 <= i < |s| ==> s[i] as int < 128
    ensures |r| == |s|
    ensures forall i :: 0 <= i < |s| ==> r[i] == s[i] as int
  {
    seq(|s|, i requires 0 <= i < |s| => s[i] as int)
  }

  /** The domain-separation tag appended to every seed preimage. */
  const DOMAIN_TAG: Bytes := Ascii("near-sdk-secure-rng-v1")

  /** `get_block_index`: despite its name it reports the block timestamp,
      and it never fails. */
  function GetBlockIndex(ctx: Context): (r: Result<u64>)
    ensures r.Ok? && r.value == ctx.blockTimestamp
  {
    Ok(ctx.blockTimestamp)
  }

  /** The block-index bytes that `get_transaction_entropy` hashes: present
      only when `get_block_index` succeeds. */
  function BlockIndexBytes(ctx: Context): (r: Bytes)
    ensures |r| == 8 && FromLE(r) == ctx.blockTimestamp
  {
    match GetBlockIndex(ctx)
    case Ok(index) => LE8(index)
    case Err(_) => []
  }

  /** `get_transaction_entropy`: the hash of the current account, the
      predecessor, the timestamp and the prepaid gas, in that order. */
  function TransactionEntropy(c: Crypto, ctx: Context): (r: Seed)
    ensures r == c.sha256(ctx.currentAccountId + ctx.predecessorAccountId
                          + LE8(ctx.blockTimestamp) + LE8(ctx.prepaidGas))
  {
    c.sha256(ctx.currentAccountId + ctx.predecessorAccountId + BlockIndexBytes(ctx)
             + LE8(ctx.prepaidGas))
  }

  /** The bytes hashed into a seed: VRF output, caller entropy, domain tag. */
  function SeedPreimage(ctx: Context, additionalEntropy: Bytes): Bytes
  {
    ctx.randomSeed + additionalEntropy + DOMAIN_TAG
  }

  /** `generate_seed_with_entropy`. */
  function SeedWithEntropy(c: Crypto, ctx: Context, additionalEntropy: Bytes): (r: Seed)
    ensures r == c.sha256(ctx.randomSeed + additionalEntropy + DOMAIN_TAG)
  {
    c.sha256(SeedPreimage(ctx, additionalEntropy))
  }

  /** `generate_secure_seed`. */
  function SecureSeed(c: Crypto, ctx: Context): (r: Seed)
    ensures r == c.sha256(ctx.randomSeed
                          + c.sha256(ctx.currentAccountId + ctx.predecessorAccountId
                                     + LE8(ctx.blockTimestamp) + LE8(ctx.prepaidGas))
                          + DOMAIN_TAG)
  {
    SeedWithEntropy(c, ctx, TransactionEntropy(c, ctx))
  }

  /** `SecureRng::with_entropy`: a fresh generator keyed by
      `H(vrf ++ extra ++ tag)`. */
  function WithEntropy(c: Crypto, ctx: Context, additionalEntropy: Bytes): (g: Rng)
    ensures g.seed == c.sha256(ctx.randomSeed + additionalEntropy + DOMAIN_TAG)
    ensures g.keystream == c.chacha20 && g.pos == 0
  {
    FromSeed(c.chacha20, SeedWithEntropy(c, ctx, additionalEntropy))
  }

  /** `SecureRng::new`: a fresh generator keyed by
      `H(vrf ++ H(current ++ predecessor ++ le8(timestamp) ++ le8(gas)) ++ tag)`. */
  function New(c: Crypto, ctx: Context): (g: Rng)
    ensures g.seed == c.sha256(ctx.randomSeed
                               + c.sha256(ctx.currentAccountId + ctx.predecessorAccountId
                                          + LE8(ctx.blockTimestamp) + LE8(ctx.prepaidGas))
                               + DOMAIN_TAG)
    ensures g == WithEntropy(c, ctx, TransactionEntropy(c, ctx))
    ensures g.keystream == c.chacha20 && g.pos == 0
  {
    FromSeed(c.chacha20, SecureSeed(c, ctx))
  }

  /** `SecureRng::reseed`: whatever the generator held before, it now holds
      exactly the generator `new` would build in the current context. */
  function Reseed(c: Crypto, ctx: Context, g: Rng): (g': Rng)
    ensures g' == New(c, ctx)
    ensures g'.pos == 0
  {
    FromSeed(c.chacha20, SecureSeed(c, ctx))
  }

  /** The preimage splits back into its three parts. */
  lemma SeedPreimageParts(ctx: Context, additionalEntropy: Bytes)
    ensures var p := SeedPreimage(ctx, additionalEntropy);
            && |p| == 32 + |additionalEntropy| + 22
            && p[..32] == ctx.randomSeed
            && p[32..32 + |additionalEntropy|] == additionalEntropy
            && p[32 + |additionalEntropy|..] == DOMAIN_TAG
  {
    var p := SeedPreimage(ctx, additionalEntropy);
    assert p == ctx.randomSeed + (additionalEntropy + DOMAIN_TAG);
  }

  /** The timestamp always takes part: the entropy record hashed by `new` is
      exactly `current ++ predecessor ++ le8(timestamp) ++ le8(gas)`, which
      has 16 bytes beyond the two account ids. */
  lemma TimestampAlwaysIncluded(ctx: Context)
    ensures GetBlockIndex(ctx).Ok?
    ensures BlockIndexBytes(ctx) == LE8(ctx.blockTimestamp)
    ensures FromLE(BlockIndexBytes(ctx)) == ctx.blockTimestamp
  {
  }

  /** Two contexts that agree on the VRF output, both account ids, the
      timestamp and the prepaid gas yield the same generator; nothing else
      in the context (the block height in particular) is read. */
  lemma NewDependsOnlyOnEntropyInputs(c: Crypto, ctx: Context, ctx': Context)
    requires ctx.randomSeed == ctx'.randomSeed
    requires ctx.currentAccountId == ctx'.currentAccountId
    requires ctx.predecessorAccountId == ctx'.predecessorAccountId
    requires ctx.blockTimestamp == ctx'.blockTimestamp
    requires ctx.prepaidGas == ctx'.prepaidGas
    ensures New(c, ctx) == New(c, ctx')
  {
  }

  /** `with_entropy` reads nothing of the context but the VRF output: two
      callers in the same block that pass the same extra entropy get the
      same generator. */
  lemma WithEntropyIgnoresCaller(c: Crypto, ctx: Context, ctx': Context, e: Bytes)
    requires ctx.randomSeed == ctx'.randomSeed
    ensures WithEntropy(c, ctx, e) == WithEntropy(c, ctx', e)
  {
  }

  /** The account ids are concatenated without a separator or length, so
      moving the last byte of the current account id to the front of the
      predecessor id leaves the generator unchanged, whatever the hash. */
  lemma AccountBoundaryAmbiguity(c: Crypto, ctx: Context, a: Bytes, x: u8, b: Bytes)
    requires ctx.currentAccountId == a + [x] && ctx.predecessorAccountId == b
    ensures New(c, ctx.(currentAccountId := a, predecessorAccountId := [x] + b)) == New(c, ctx)
  {
    assert a + ([x] + b) == (a + [x]) + b;
  }

  /** An instance with account ids of at least two bytes, as NEAR requires:
      "abc"/"de" and "ab"/"cde" are different pairs with the same generator. */
  lemma AccountBoundaryExample(c: Crypto, ctx: Context)
    requires ctx.currentAccountId == [97, 98, 99] && ctx.predecessorAccountId == [100, 101]
    ensures var ctx' := ctx.(currentAccountId := [97, 98], predecessorAccountId := [99, 100, 101]);
            ctx' != ctx && New(c, ctx') == New(c, ctx)
  {
    assert ctx.currentAccountId == [97, 98] + [99];
    AccountBoundaryAmbiguity(c, ctx, [97, 98], 99, [100, 101]);
    assert [99] + [100, 101] == [99, 100, 101];
  }
}
