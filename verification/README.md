# SecureRng and the lottery contract, modelled in Dafny

This project models the secure random-number layer of near-sdk
(`near-sdk/src/random.rs`) and the example lottery contract built on it
(`examples/lottery/src/lib.rs`).

- **Seed derivation.** `SecureRng::new` and `reseed` key ChaCha20 with
  `SHA-256(vrf ++ extra ++ "near-sdk-secure-rng-v1")`.
  Here `extra = SHA-256(current_account ++ predecessor ++ le8(timestamp) ++ le8(prepaid_gas))`.
  `SecureRng::with_entropy` uses the caller's bytes as `extra` instead.
- **Sampling.** This covers typed range draws, `bool`/`flip_coin`, `roll_die`,
  `percentage`, `choice`, Fisher–Yates `shuffle` and `sample_multiple`
  (sampling without replacement).
- **Lottery.** A record of participants and an optional winner, with `new`,
  `enter_lottery`, `pick_winner`, `reset_lottery`, `draw_multiple_winners`,
  `shuffle_participants`, the dice, coin and percentage calls, and the getters.

The model is functional. Every operation threads an explicit generator
state `Stream.Rng`. That state holds an abstract keystream
`(seed, position) -> u64` standing in for ChaCha20, the 32-byte seed, and
the number of words consumed. The host environment (`env::*`) is a
`Seeding.Context` record. SHA-256 and the ChaCha20 keystream are
function-valued fields of `Seeding.Crypto`. Nothing is assumed about them
beyond their types, so every property below holds for every hash function
and every keystream.

A Rust panic is modelled as a `Results.Result` error value. Two panics
occur: `gen_range` on an empty range, and a `u8` addition overflow.

The model follows what the code does, including where its comments suggest otherwise:
- The entropy always contains the block timestamp. The comment on
  `get_block_index` speaks of a block index that may be unavailable, but the
  function returns `Ok(env::block_timestamp())`. The block height is never read.
- `sample_multiple` returns the slice unshuffled only when `count > len`.
  With `count == len` it shuffles like any other in-range count.
- A range draw on an empty range panics. It never returns an error value
  to the caller.
- The domain tag is the 22 ASCII bytes of `near-sdk-secure-rng-v1`.

Determinism needs no separate axiom. Every operation is a function of the
`Crypto` record, the `Context` and its arguments, so equal inputs give
equal generators and equal outputs.

`Seeding.AccountBoundaryAmbiguity` records one property of the derivation
as written. The two account ids are concatenated with no separator, so
different (contract, caller) pairs can produce the same seed whatever the
hash is. One example is `"abc"`/`"de"` against `"ab"`/`"cde"` with the same
VRF output, timestamp and gas.

## Model

| member | source | states |
|---|---|---|
| MachineInts.LE8 | near-sdk/src/random.rs:119-123 | `to_le_bytes` gives 8 bytes that decode back to the number |
| MachineInts.FromLEToLE | near-sdk/src/random.rs:119-123 | decoding the little-endian encoding of a number that fits gives the number back |
| MachineInts.ToLEFromLE | near-sdk/src/random.rs:119-123 | encoding a decoded byte string gives the byte string back |
| MachineInts.LE8Injective | near-sdk/src/random.rs:119-123 | distinct timestamps or gas amounts contribute distinct bytes |
| Stream.FromSeed | near-sdk/src/random.rs:70-72 | a freshly seeded generator is keyed by the seed and starts at word 0 |
| Stream.Below | near-sdk/src/random.rs:209-211 | a draw from `0..n` is below `n`, takes one draw (one word in this model) and keeps the key |
| Stream.GenRange | near-sdk/src/random.rs:189-221 | `gen_range(lo..hi)` succeeds iff `lo < hi`, gives a value in `[lo, hi)`, and otherwise panics with "cannot sample empty range" |
| Stream.BelowReachesEveryValue | near-sdk/src/random.rs:209-211 | every value below `n` is the draw of some keystream |
| Stream.GenRangeReachesEveryValue | near-sdk/src/random.rs:189-221 | every value of `[lo, hi)` is the draw of some keystream, so the bound is the only restriction |
| Seeding.GetBlockIndex | near-sdk/src/random.rs:130-134 | `get_block_index` always succeeds, and reports the block timestamp |
| Seeding.BlockIndexBytes | near-sdk/src/random.rs:118-120 | the guarded update always hashes 8 bytes, which decode to the block timestamp |
| Seeding.SeedWithEntropy | near-sdk/src/random.rs:137-152 | `generate_seed_with_entropy(e)` is `H(vrf ++ e ++ tag)` |
| Seeding.SecureSeed | near-sdk/src/random.rs:99-105 | `generate_secure_seed` is `H(vrf ++ H(current ++ predecessor ++ le8(timestamp) ++ le8(gas)) ++ tag)` |
| Seeding.TransactionEntropy | near-sdk/src/random.rs:108-126 | the transaction entropy is `H(current ++ predecessor ++ le8(timestamp) ++ le8(gas))` |
| Seeding.WithEntropy | near-sdk/src/random.rs:91-96 | `with_entropy(e)` keys the cipher with `H(vrf ++ e ++ tag)` at stream position 0 |
| Seeding.New | near-sdk/src/random.rs:68-73 | `new` keys the cipher with `H(vrf ++ H(current ++ predecessor ++ le8(timestamp) ++ le8(gas)) ++ tag)`, i.e. `with_entropy` of the transaction entropy |
| Seeding.Reseed | near-sdk/src/random.rs:157-159 | after `reseed` the generator equals what `new` builds in the current context, whatever it held before |
| Seeding.SeedPreimageParts | near-sdk/src/random.rs:137-152 | the hashed bytes are exactly the 32 VRF bytes, then the extra entropy, then the 22-byte tag |
| Seeding.TimestampAlwaysIncluded | near-sdk/src/random.rs:117-134 | `get_block_index` always succeeds, so the 8 timestamp bytes are always hashed |
| Seeding.NewDependsOnlyOnEntropyInputs | near-sdk/src/random.rs:108-126 | `new` reads only the VRF output, both account ids, the timestamp and the gas |
| Seeding.WithEntropyIgnoresCaller | near-sdk/src/random.rs:137-152 | `with_entropy` reads only the VRF output, so two callers in one block with the same extra bytes get the same generator |
| Seeding.AccountBoundaryAmbiguity | near-sdk/src/random.rs:111-115 | for all ids, moving the last byte of the current account id to the front of the predecessor id leaves the generator unchanged |
| Seeding.AccountBoundaryExample | near-sdk/src/random.rs:111-115 | the valid-length pairs "abc"/"de" and "ab"/"cde" differ yet give the same generator |
| Sampling.Bool | near-sdk/src/random.rs:171-173 | `bool` takes one draw (one word in this model) and is true iff that draw from `0..2` is 1 |
| Sampling.DrawU8 | near-sdk/src/random.rs:189-191 | `u8(lo..hi)` gives a value in `[lo, hi)`, and panics iff `hi <= lo` |
| Sampling.DrawU16 | near-sdk/src/random.rs:194-196 | `u16(lo..hi)` gives a value in `[lo, hi)`, and panics iff `hi <= lo` |
| Sampling.DrawU32 | near-sdk/src/random.rs:199-201 | `u32(lo..hi)` gives a value in `[lo, hi)`, and panics iff `hi <= lo` |
| Sampling.DrawU64 | near-sdk/src/random.rs:204-206 | `u64(lo..hi)` gives a value in `[lo, hi)`, and panics iff `hi <= lo` |
| Sampling.DrawUsize | near-sdk/src/random.rs:209-211 | `usize(lo..hi)` gives a value in `[lo, hi)`, and panics iff `hi <= lo` |
| Sampling.DrawI32 | near-sdk/src/random.rs:214-216 | `i32(lo..hi)` gives a value in `[lo, hi)`, and panics iff `hi <= lo` |
| Sampling.DrawI64 | near-sdk/src/random.rs:219-221 | `i64(lo..hi)` gives a value in `[lo, hi)`, and panics iff `hi <= lo` |
| Sampling.Index | near-sdk/src/random.rs:264 | `usize(0..n)` with `n > 0` never panics and gives an index below `n` |
| Sampling.Choice | near-sdk/src/random.rs:260-267 | `choice` is `None` exactly on an empty slice, and then makes no draw; otherwise it gives a member of the slice after one draw (one word in this model) |
| Sampling.Swap | near-sdk/src/random.rs:244-247 | a swap exchanges two positions and leaves every other position alone |
| Sampling.SwapPermutes | near-sdk/src/random.rs:244-247 | a swap keeps the multiset of elements |
| Sampling.ShuffleFrom | near-sdk/src/random.rs:244-247 | each Fisher–Yates pass keeps the length and the multiset of elements, and never moves an already settled element |
| Sampling.Shuffle | near-sdk/src/random.rs:244-247 | `shuffle` keeps the length and the multiset of elements (a permutation) |
| Sampling.Range | near-sdk/src/random.rs:338 | the index vector `0..len` holds each position at its own place |
| Sampling.Select | near-sdk/src/random.rs:340 | mapping indices to slice elements gives the element at each chosen index |
| Sampling.ShuffleFromKeepsDistinct | near-sdk/src/random.rs:338-339 | shuffling a vector with no repeats gives a vector with no repeats |
| Sampling.ShuffleFromKeepsBound | near-sdk/src/random.rs:338-339 | shuffled indices stay below the slice length |
| Sampling.ShuffleFromCommutesWithSelect | near-sdk/src/random.rs:338-340 | shuffling indices and then mapping them equals mapping and then shuffling, with the same draws |
| Sampling.SampleMultiple | near-sdk/src/random.rs:333-341 | `count > len` returns the slice in order with no draw; otherwise exactly `count` elements; in both cases the elements come from pairwise-distinct positions |
| Sampling.SampleIsShufflePrefix | near-sdk/src/random.rs:338-340 | for `count <= len` the sample is the first `count` elements of `shuffle` of the slice with the same generator |
| Sampling.SampleAllIsPermutation | near-sdk/src/random.rs:338-340 | asking for exactly `len` elements yields a permutation of the slice |
| Sampling.DrawnAreMembers | near-sdk/src/random.rs:420-424 | every sampled element is an element of the slice |
| Sampling.DrawnFromDistinctAreDistinct | near-sdk/src/random.rs:338-340 | a sample from a slice with no repeated element has no repeated element |
| Sampling.FlipCoin | near-sdk/src/random.rs:317-319 | `flip_coin` takes one draw and keeps the key |
| Sampling.FlipCoinReachesBothFaces | near-sdk/src/random.rs:317-319 | `flip_coin` is not constant: each of `true` and `false` is the result for some keystream |
| Sampling.AddU8 | near-sdk/src/random.rs:326 | checked `u8` addition returns the sum when it fits and panics otherwise |
| Sampling.WrappingAddU8 | near-sdk/src/random.rs:326 | unchecked `u8` addition wraps modulo 256 |
| Sampling.RollDie | near-sdk/src/random.rs:322-327 | `roll_die(0)` is 0 with no draw; for `1..=254` sides a face in `[1, sides]`; 255 sides panic |
| Sampling.RollDieOverflows | near-sdk/src/random.rs:326 | `roll_die(255)` panics with overflow checks on, and with them off the wrapped range `1..0` panics as empty |
| Sampling.RollDieFixed | near-sdk/src/random.rs:322-327 | the corrected die gives 0 with no draw for 0 sides, and otherwise a face in `[1, sides]` for every `u8` |
| Sampling.RollDieFixedAgrees | near-sdk/src/random.rs:322-327 | the original succeeds iff `sides < 255`, and then equals the corrected die |
| Sampling.Percentage | near-sdk/src/random.rs:329-331 | `percentage` never panics and gives a value in `[0, 100]` |
| Lottery.New | examples/lottery/src/lib.rs:15-20 | a new lottery has no participants and no winner |
| Lottery.EnterLottery | examples/lottery/src/lib.rs:24-26 | the name goes at the end, earlier entries and the winner stay as they were |
| Lottery.PickWinner | examples/lottery/src/lib.rs:29-38 | on no participants, `None` and no change; otherwise `Some(p)` with `p` a participant, stored as winner, with participants unchanged |
| Lottery.RollDice | examples/lottery/src/lib.rs:41-44 | `roll_die(6)` as written never panics; the roll is in `[1, 6]` and the state is untouched |
| Lottery.FlipCoin | examples/lottery/src/lib.rs:47-50 | the state is untouched and the result is a fresh generator's coin flip |
| Lottery.RandomPercentage | examples/lottery/src/lib.rs:53-56 | the result is in `[0, 100]` and the state is untouched |
| Lottery.ResetLottery | examples/lottery/src/lib.rs:69-72 | a reset lottery equals a new one |
| Lottery.DrawMultipleWinners | examples/lottery/src/lib.rs:75-84 | the state is untouched; the length is `min(count, len)`; with `count > len` every participant in order; the entries come from distinct positions |
| Lottery.ShuffleParticipants | examples/lottery/src/lib.rs:87-90 | the participants keep their length and multiset, and the winner is untouched |
| Lottery.EnterGrowsCount | examples/lottery/src/lib.rs:64-66 | after entering, `get_participant_count` is one more and `get_winner` is unchanged |
| Lottery.PickThenGetWinner | examples/lottery/src/lib.rs:59-61 | after a pick on a non-empty list, `get_winner` returns the picked participant and the count is unchanged |
| Lottery.ResetEmpties | examples/lottery/src/lib.rs:69-72 | after a reset the count is 0 and there is no winner |
| Lottery.DistinctNamesGiveDistinctWinners | examples/lottery/src/lib.rs:75-84 | when participants' names are distinct, the drawn winners are distinct |
| Lottery.WinnersAreParticipants | examples/lottery/src/lib.rs:75-84 | every drawn winner is a participant |
| Lottery.RepeatedNameCanWinTwice | examples/lottery/src/lib.rs:75-84 | with one name entered twice, drawing two winners returns that name twice |
| Lottery.ThreeEntrantsScenario | examples/lottery/src/lib.rs:100-116 | with Alice, Bob and Charlie entered, the count is 3, the pick is one of them, and two winners are distinct |

## Left out

- ChaCha20 and SHA-256 are foreign crates. They are abstract functions here, so no statistical or cryptographic property of them is claimed.
- Stream.Below: the bounded-draw algorithm of `rand` (`gen_range` with its bias correction) is not part of this model. A draw takes one keystream word modulo the range width, so only the bound is claimed, with no uniformity and no word-consumption pattern. The reachability lemmas show the reduction excludes no in-range value.
- Sampling.Bool: how `rand` maps a word to a `bool` is not part of this model, and fairness is not claimed.
- Sampling.FlipCoin: fairness is not claimed; only that it takes one draw and that both faces are reachable.
- Sampling.Shuffle: `rand`'s `SliceRandom::shuffle` is not part of this model. The model is the Fisher–Yates pass over `len-1 .. 1` with a draw from `0..=i` at each step, and only the permutation property is claimed, not uniformity.
- Seeding.New: the claim that a different predecessor gives a different seed rests on SHA-256 collision resistance and is not stated. The only related fact proved is the boundary ambiguity above, which holds for every hash.
- The `f32`/`f64` unit-interval draws (`random.rs` lines 224-231) are floating point and not modelled.
- The `RngCore`, `CryptoRng` and `Default` impls only forward to ChaCha20 or `new`. The raw word is `Rng.Word`.
- `usize` is unbounded here, because a slice's length always fits in it. The lottery's `count as usize` and `len() as u64` casts are therefore lossless.
- `get_winner` and `get_participant_count` carry no contract of their own. Their behaviour is stated by `EnterGrowsCount`, `PickThenGetWinner` and `ResetEmpties`.
- The `#[near]`, `#[init]` and `#[payable]` attributes, contract-state serialisation, storage and attached deposits are not modelled. The same goes for `near-sdk/compilation_tests/allow_attr_forwarding.rs`, a macro-expansion compile test.

## Findings

| source | as written | input that shows it | evidently intended | confidence | as-written member | corrected member |
|---|---|---|---|---|---|---|
| near-sdk/src/random.rs:326 | `roll_die` computes the exclusive bound `sides + 1` in `u8` | `roll_die(255)`: the addition overflows and panics, or with overflow checks off wraps to the empty range `1..0`, which panics | a face in `[1, 255]`, as the documented "1-sides inclusive" promises for every `u8` | high; not executed | Sampling.RollDie (shown by Sampling.RollDieOverflows) | Sampling.RollDieFixed (proved equal to Sampling.RollDie wherever that succeeds, by Sampling.RollDieFixedAgrees) |
