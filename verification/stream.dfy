/** The seeded stream generator behind `SecureRng` (ChaCha20 in the
    source), kept abstract: a keystream function from a 32-byte seed and a
    word position to a 64-bit word, and a generator state that records the
    seed and how many words have been consumed.

    A bounded draw consumes one word and reduces it into the range.  The
    real bounded-draw algorithm of the `rand` crate is not part of this
    model; the reduction here only serves to keep results in range, and
    `BelowReachesEveryValue` shows that it rules out no in-range value. */
module Stream {
  import opened MachineInts
  import opened Results

  /** A 32-byte value: a SHA-256 digest, and the ChaCha20 key. */
  type Seed = s: Bytes | |s| == 32 witness seq(32, _ => 0)

  /** The cipher's output: word `n` of the stream keyed by `seed`. */
  type Keystream = (Seed, nat) -> u64

  /** The generator state (`SecureRng`'s `inner: ChaCha20Rng`). */
  datatype Rng = Rng(keystream: Keystream, seed: Seed, pos: nat) {

    /** The next raw word of the stream. */
    function Word(): u64 {
      keystream(seed, pos)
    }

    /** The state after one word has been consumed. */
    function Advance(): Rng {
      this.(pos := pos + 1)
    }
  }

  /** `ChaCha20Rng::from_seed`: a generator at the start of its stream. */
  function FromSeed(keystream: Keystream, seed: Seed): (g: Rng)
    ensures g.pos == 0 && g.seed == seed && g.keystream == keystream
  {
    Rng(keystream, seed, 0)
  }

  /** A draw from `0..n`, consuming one word of the stream. */
  function Below(g: Rng, n: nat): (r: (nat, Rng))
    requires n > 0
    ensures r.0 < n
    ensures r.1.seed == g.seed && r.1.keystream == g.keystream && r.1.pos == g.pos + 1
  {
    (g.Word() % n, g.Advance())
  }

  /** rand's `gen_range(lo..hi)`: a value in `[lo, hi)`, or a panic when the
      range is empty. */
  function GenRange(g: Rng, lo: int, hi: int): (r: Result<(int, Rng)>)
    ensures r.Ok? <==> lo < hi
    ensures r.Err? ==> r.error == CannotSampleEmptyRange
    ensures r.Ok? ==> lo <= r.value.0 < hi && r.value.1 == g.Advance()
  {
    if hi <= lo then Err(CannotSampleEmptyRange)
    else
      var (v, g') := Below(g, hi - lo);
      Ok((lo + v, g'))
  }

  /** The keystream that yields `w` at every position. */
  function ConstantKeystream(w: u64): (ks: Keystream)
    ensures forall seed: Seed, n: nat :: ks(seed, n) == w
  {
    (_, _) => w
  }

  /** Every value of `0..n` is the draw of some keystream, so the model's
      reduction excludes no outcome (for ranges no wider than a word). */
  lemma BelowReachesEveryValue(g: Rng, n: nat, v: nat)
    requires v < n <= U64_LIMIT
    ensures Below(g.(keystream := ConstantKeystream(v)), n).0 == v
  {
    var g' := g.(keystream := ConstantKeystream(v));
    assert g'.Word() == v;
    ModOfSmaller(v, n);
  }

  lemma ModOfSmaller(v: nat, n: nat)
    requires v < n
    ensures v % n == v
  {
    assert v == 0 * n + v;
  }

  /** Every value of `[lo, hi)` is the draw of some keystream. */
  lemma GenRangeReachesEveryValue(g: Rng, lo: int, hi: int, v: int)
    requires lo <= v < hi && hi - lo <= U64_LIMIT
    ensures var g' := g.(keystream := ConstantKeystream(v - lo));
            GenRange(g', lo, hi) == Ok((v, g'.Advance()))
  {
    BelowReachesEveryValue(g, hi - lo, v - lo);
  }
}
