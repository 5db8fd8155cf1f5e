/** The sampling layer of `SecureRng` (near-sdk/src/random.rs, lines
    161-341): typed range draws, booleans, dice, percentages, choice,
    Fisher–Yates shuffling and sampling without replacement.  Every
    operation takes the generator state and returns the state after its
    draws. */
module Sampling {
  import opened MachineInts
  import opened Results
  import opened Stream

  // ---------------------------------------------------------------------
  // Typed range draws
  // ---------------------------------------------------------------------

  /** `SecureRng::bool`.  How rand maps a word to a bool is not modelled:
      the model takes one draw from `0..2`. */
  function Bool(g: Rng): (r: (bool, Rng))
    ensures r.1 == g.Advance()
    ensures r.0 <==> g.Word() % 2 == 1
  {
    var (bit, g') := Below(g, 2);
    (bit == 1, g')
  }

  /** `SecureRng::u8`. */
  function DrawU8(g: Rng, lo: u8, hi: u8): (r: Result<(u8, Rng)>)
    ensures r.Ok? <==> lo < hi
    ensures r.Err? ==> r.error == CannotSampleEmptyRange
    ensures r.Ok? ==> lo <= r.value.0 < hi && r.value.1 == g.Advance()
  {
    match GenRange(g, lo, hi)
    case Ok((v, g')) => Ok((v, g'))
    case Err(e) => Err(e)
  }

  /** `SecureRng::u16`. */
  function DrawU16(g: Rng, lo: u16, hi: u16): (r: Result<(u16, Rng)>)
    ensures r.Ok? <==> lo < hi
    ensures r.Err? ==> r.error == CannotSampleEmptyRange
    ensures r.Ok? ==> lo <= r.value.0 < hi && r.value.1 == g.Advance()
  {
    match GenRange(g, lo, hi)
    case Ok((v, g')) => Ok((v, g'))
    case Err(e) => Err(e)
  }

  /** `SecureRng::u32`. */
  function DrawU32(g: Rng, lo: u32, hi: u32): (r: Result<(u32, Rng)>)
    ensures r.Ok? <==> lo < hi
    ensures r.Err? ==> r.error == CannotSampleEmptyRange
    ensures r.Ok? ==> lo <= r.value.0 < hi && r.value.1 == g.Advance()
  {
    match GenRange(g, lo, hi)
    case Ok((v, g')) => Ok((v, g'))
    case Err(e) => Err(e)
  }

  /** `SecureRng::u64`. */
  function DrawU64(g: Rng, lo: u64, hi: u64): (r: Result<(u64, Rng)>)
    ensures r.Ok? <==> lo < hi
    ensures r.Err? ==> r.error == CannotSampleEmptyRange
    ensures r.Ok? ==> lo <= r.value.0 < hi && r.value.1 == g.Advance()
  {
    match GenRange(g, lo, hi)
    case Ok((v, g')) => Ok((v, g'))
    case Err(e) => Err(e)
  }

  /** `SecureRng::usize`. */
  function DrawUsize(g: Rng, lo: usize, hi: usize): (r: Result<(usize, Rng)>)
    ensures r.Ok? <==> lo < hi
    ensures r.Err? ==> r.error == CannotSampleEmptyRange
    ensures r.Ok? ==> lo <= r.value.0 < hi && r.value.1 == g.Advance()
  {
    match GenRange(g, lo, hi)
    case Ok((v, g')) => Ok((v, g'))
    case Err(e) => Err(e)
  }

  /** `SecureRng::i32`. */
  function DrawI32(g: Rng, lo: i32, hi: i32): (r: Result<(i32, Rng)>)
    ensures r.Ok? <==> lo < hi
    ensures r.Err? ==> r.error == CannotSampleEmptyRange
    ensures r.Ok? ==> lo <= r.value.0 < hi && r.value.1 == g.Advance()
  {
    match GenRange(g, lo, hi)
    case Ok((v, g')) => Ok((v, g'))
    case Err(e) => Err(e)
  }

  /** `SecureRng::i64`. */
  function DrawI64(g: Rng, lo: i64, hi: i64): (r: Result<(i64, Rng)>)
    ensures r.Ok? <==> lo < hi
    ensures r.Err? ==> r.error == CannotSampleEmptyRange
    ensures r.Ok? ==> lo <= r.value.0 < hi && r.value.1 == g.Advance()
  {
    match GenRange(g, lo, hi)
    case Ok((v, g')) => Ok((v, g'))
    case Err(e) => Err(e)
  }

  /** `usize(0..n)` on a non-empty range, which cannot panic. */
  function Index(g: Rng, n: nat): (r: (nat, Rng))
    requires n > 0
    ensures r.0 < n && r.1 == g.Advance()
    ensures DrawUsize(g, 0, n) == Ok(r)
  {
    DrawUsize(g, 0, n).value
  }

  // ---------------------------------------------------------------------
  // choice
  // ---------------------------------------------------------------------

  /** `SecureRng::choice`: `None` without a draw on an empty slice,
      otherwise the element at a drawn index. */
  function Choice<T>(g: Rng, s: seq<T>): (r: (Option<T>, Rng))
    ensures r.0.None? <==> |s| == 0
    ensures r.0.None? ==> r.1 == g
    ensures r.0.Some? ==> r.0.value in s && r.1 == g.Advance()
  {
    if |s| == 0 then (None, g)
    else
      var (i, g') := Index(g, |s|);
      (Some(s[i]), g')
  }

  // ---------------------------------------------------------------------
  // shuffle
  // ---------------------------------------------------------------------

  /** `s` with the elements at `a` and `b` exchanged (`slice::swap`). */
  function Swap<T>(s: seq<T>, a: nat, b: nat): (r: seq<T>)
    requires a < |s| && b < |s|
    ensures |r| == |s| && r[a] == s[b] && r[b] == s[a]
    ensures forall k :: 0 <= k < |s| && k != a && k != b ==> r[k] == s[k]
  {
    s[a := s[b]][b := s[a]]
  }

  lemma SwapPermutes<T>(s: seq<T>, a: nat, b: nat)
    requires a < |s| && b < |s|
    ensures multiset(Swap(s, a, b)) == multiset(s)
  {
  }

  /** Fisher–Yates over the unsettled prefix `s[..i]`: exchange its last
      element with one drawn from `0..i`, settle it, and go on with the
      shorter prefix.  Elements at `i` and beyond are never moved. */
  function ShuffleFrom<T>(g: Rng, s: seq<T>, i: nat): (r: (seq<T>, Rng))
    requires i <= |s|
    ensures |r.0| == |s|
    ensures multiset(r.0) == multiset(s)
    ensures r.0[i..] == s[i..]
    decreases i
  {
    if i <= 1 then (s, g)
    else
      var (j, g1) := Index(g, i);
      SwapPermutes(s, i - 1, j);
      var r := ShuffleFrom(g1, Swap(s, i - 1, j), i - 1);
      assert r.0[i..] == r.0[i - 1..][1..];
      r
  }

  /** `SecureRng::shuffle`: a Fisher–Yates shuffle of the whole slice. */
  function Shuffle<T>(g: Rng, s: seq<T>): (r: (seq<T>, Rng))
    ensures |r.0| == |s|
    ensures multiset(r.0) == multiset(s)
  {
    ShuffleFrom(g, s, |s|)
  }

  // ---------------------------------------------------------------------
  // Distinct indices
  // ---------------------------------------------------------------------

  ghost predicate Distinct<T>(s: seq<T>) {
    forall a, b :: 0 <= a < b < |s| ==> s[a] != s[b]
  }

  predicate IndicesBelow(ix: seq<nat>, n: nat) {
    forall k :: 0 <= k < |ix| ==> ix[k] < n
  }

  /** `0, 1, ..., n - 1`. */
  function Range(n: nat): (r: seq<nat>)
    ensures |r| == n && IndicesBelow(r, n)
    ensures forall k :: 0 <= k < n ==> r[k] == k
  {
    seq(n, k => k)
  }

  /** The elements of `s` at the positions `ix`, in that order. */
  function Select<T>(ix: seq<nat>, s: seq<T>): (r: seq<T>)
    requires IndicesBelow(ix, |s|)
    ensures |r| == |ix|
    ensures forall k :: 0 <= k < |ix| ==> r[k] == s[ix[k]]
  {
    seq(|ix|, k requires 0 <= k < |ix| => s[ix[k]])
  }

  /** `r` lists elements of `s` taken from pairwise-distinct positions. */
  ghost predicate DrawnWithoutReplacement<T>(r: seq<T>, s: seq<T>) {
    exists ix: seq<nat> ::
      && IndicesBelow(ix, |s|) && Distinct(ix) && |ix| == |r|
      && Select(ix, s) == r
  }

  lemma SwapKeepsDistinct<T>(s: seq<T>, a: nat, b: nat)
    requires a < |s| && b < |s| && Distinct(s)
    ensures Distinct(Swap(s, a, b))
  {
    var r := Swap(s, a, b);
    forall x, y | 0 <= x < y < |r|
      ensures r[x] != r[y]
    {
      var x' := if x == a then b else if x == b then a else x;
      var y' := if y == a then b else if y == b then a else y;
      assert r[x] == s[x'] && r[y] == s[y'] && x' != y';
    }
  }

  lemma {:induction false} ShuffleFromKeepsDistinct<T>(g: Rng, s: seq<T>, i: nat)
    requires i <= |s| && Distinct(s)
    ensures Distinct(ShuffleFrom(g, s, i).0)
    decreases i
  {
    if i > 1 {
      var (j, g1) := Index(g, i);
      SwapKeepsDistinct(s, i - 1, j);
      ShuffleFromKeepsDistinct(g1, Swap(s, i - 1, j), i - 1);
    }
  }

  lemma {:induction false} ShuffleFromKeepsBound(g: Rng, ix: seq<nat>, n: nat, i: nat)
    requires i <= |ix| && IndicesBelow(ix, n)
    ensures IndicesBelow(ShuffleFrom(g, ix, i).0, n)
    decreases i
  {
    if i > 1 {
      var (j, g1) := Index(g, i);
      ShuffleFromKeepsBound(g1, Swap(ix, i - 1, j), n, i - 1);
    }
  }

  lemma SwapCommutesWithSelect<T>(ix: seq<nat>, s: seq<T>, a: nat, b: nat)
    requires a < |ix| && b < |ix| && IndicesBelow(ix, |s|)
    ensures IndicesBelow(Swap(ix, a, b), |s|)
    ensures Swap(Select(ix, s), a, b) == Select(Swap(ix, a, b), s)
  {
    var l := Swap(Select(ix, s), a, b);
    var r := Select(Swap(ix, a, b), s);
    assert |l| == |r|;
    forall k | 0 <= k < |l|
      ensures l[k] == r[k]
    {
    }
  }

  /** The draws of a shuffle depend only on the length, so shuffling a
      selection of `s` is selecting from `s` by the shuffled positions. */
  lemma {:induction false} ShuffleFromCommutesWithSelect<T>(g: Rng, ix: seq<nat>, s: seq<T>, i: nat)
    requires i <= |ix| && IndicesBelow(ix, |s|)
    ensures IndicesBelow(ShuffleFrom(g, ix, i).0, |s|)
    ensures ShuffleFrom(g, Select(ix, s), i)
         == (Select(ShuffleFrom(g, ix, i).0, s), ShuffleFrom(g, ix, i).1)
    decreases i
  {
    ShuffleFromKeepsBound(g, ix, |s|, i);
    if i > 1 {
      var (j, g1) := Index(g, i);
      SwapCommutesWithSelect(ix, s, i - 1, j);
      ShuffleFromCommutesWithSelect(g1, Swap(ix, i - 1, j), s, i - 1);
    }
  }

  // ---------------------------------------------------------------------
  // sample_multiple
  // ---------------------------------------------------------------------

  /** `Rng::sample_multiple`: when more elements are asked for than the
      slice holds, the whole slice in its own order and no draw; otherwise
      the first `count` positions of a shuffle of `0..len`, mapped back to
      the slice. */
  function SampleMultiple<T>(g: Rng, s: seq<T>, count: usize): (r: (seq<T>, Rng))
    ensures |s| < count ==> r == (s, g)
    ensures count <= |s| ==> |r.0| == count
    ensures DrawnWithoutReplacement(r.0, s)
  {
    if |s| < count then
      assert Select(Range(|s|), s) == s;
      assert Distinct(Range(|s|));
      (s, g)
    else
      var (ix, g') := Shuffle(g, Range(|s|));
      ShuffleFromKeepsBound(g, Range(|s|), |s|, |s|);
      ShuffleFromKeepsDistinct(g, Range(|s|), |s|);
      var picked := ix[..count];
      assert IndicesBelow(picked, |s|) && Distinct(picked);
      (Select(picked, s), g')
  }

  /** When `count <= len`, sampling is shuffle-then-truncate: the result is
      the first `count` elements of the Fisher–Yates shuffle of the slice
      itself, driven by the same generator, and leaves the generator where
      that shuffle does. */
  lemma SampleIsShufflePrefix<T>(g: Rng, s: seq<T>, count: usize)
    requires count <= |s|
    ensures SampleMultiple(g, s, count) == (Shuffle(g, s).0[..count], Shuffle(g, s).1)
  {
    var n := |s|;
    assert Select(Range(n), s) == s;
    ShuffleFromCommutesWithSelect(g, Range(n), s, n);
    var ix := Shuffle(g, Range(n)).0;
    assert Select(ix, s)[..count] == Select(ix[..count], s);
  }

  /** Asking for exactly `len` elements yields a permutation of the slice. */
  lemma SampleAllIsPermutation<T>(g: Rng, s: seq<T>)
    ensures multiset(SampleMultiple(g, s, |s|).0) == multiset(s)
  {
    SampleIsShufflePrefix(g, s, |s|);
    assert Shuffle(g, s).0[..|s|] == Shuffle(g, s).0;
  }

  /** Everything drawn is an element of the population. */
  lemma DrawnAreMembers<T>(r: seq<T>, s: seq<T>)
    requires DrawnWithoutReplacement(r, s)
    ensures forall k :: 0 <= k < |r| ==> r[k] in s
  {
    var ix: seq<nat> :| IndicesBelow(ix, |s|) && Distinct(ix) && |ix| == |r| && Select(ix, s) == r;
    forall k | 0 <= k < |r|
      ensures r[k] in s
    {
      assert r[k] == s[ix[k]];
    }
  }

  /** Distinct positions give distinct elements when the population has no
      repeated element. */
  lemma DrawnFromDistinctAreDistinct<T>(r: seq<T>, s: seq<T>)
    requires DrawnWithoutReplacement(r, s) && Distinct(s)
    ensures Distinct(r)
  {
    var ix: seq<nat> :| IndicesBelow(ix, |s|) && Distinct(ix) && |ix| == |r| && Select(ix, s) == r;
    forall a, b | 0 <= a < b < |r|
      ensures r[a] != r[b]
    {
      assert r[a] == s[ix[a]] && r[b] == s[ix[b]] && ix[a] != ix[b];
    }
  }

  // ---------------------------------------------------------------------
  // The `Rng` extension trait
  // ---------------------------------------------------------------------

  /** `Rng::flip_coin`: the generator's boolean draw, which takes one draw
      and keeps the key. */
  function FlipCoin(g: Rng): (r: (bool, Rng))
    ensures r.1 == g.Advance()
  {
    Bool(g)
  }

  /** Both faces of the coin occur: for every outcome some keystream
      produces it. */
  lemma FlipCoinReachesBothFaces(g: Rng, b: bool)
    ensures FlipCoin(g.(keystream := ConstantKeystream(if b then 1 else 0))).0 == b
  {
  }

  /** Checked `u8` addition (`+` with overflow checks on). */
  function AddU8(a: u8, b: u8): (r: Result<u8>)
    ensures r.Ok? <==> a + b < 0x100
    ensures r.Ok? ==> r.value == a + b
    ensures r.Err? ==> r.error == AddWithOverflow
  {
    if a + b < 0x100 then Ok(a + b) else Err(AddWithOverflow)
  }

  /** Wrapping `u8` addition (`+` with overflow checks off). */
  function WrappingAddU8(a: u8, b: u8): (r: u8)
    ensures r == a + b || r == a + b - 0x100
  {
    (a + b) % 0x100
  }

  /** `Rng::roll_die` as written: `0` without a draw for a zero-sided die,
      otherwise `u8(1..sides + 1)`, whose `sides + 1` is computed in `u8`. */
  function RollDie(g: Rng, sides: u8): (r: Result<(u8, Rng)>)
    ensures sides == 0 ==> r == Ok((0, g))
    ensures 1 <= sides < 0xff ==> r.Ok? && 1 <= r.value.0 <= sides && r.value.1 == g.Advance()
    ensures sides == 0xff ==> r.Err?
  {
    if sides == 0 then Ok((0, g))
    else
      match AddU8(sides, 1)
      case Err(e) => Err(e)
      case Ok(hi) => DrawU8(g, 1, hi)
  }

  /** A 255-sided die panics under either overflow policy: with checks the
      addition panics, and without them the range wraps to the empty
      `1..0`, on which `gen_range` panics. */
  lemma RollDieOverflows(g: Rng)
    ensures RollDie(g, 0xff) == Err(AddWithOverflow)
    ensures WrappingAddU8(0xff, 1) == 0
    ensures DrawU8(g, 1, WrappingAddU8(0xff, 1)) == Err(CannotSampleEmptyRange)
  {
  }

  /** `roll_die` with the bound computed in a wider type: defined for every
      `u8`, and a die of `sides >= 1` shows a face in `[1, sides]`. */
  function RollDieFixed(g: Rng, sides: u8): (r: (u8, Rng))
    ensures sides == 0 ==> r == (0, g)
    ensures sides >= 1 ==> 1 <= r.0 <= sides && r.1 == g.Advance()
  {
    if sides == 0 then (0, g)
    else
      var (v, g') := GenRange(g, 1, sides as int + 1).value;
      (v, g')
  }

  /** The corrected roll agrees with the original wherever the original
      does not panic, and only a 255-sided die separates them. */
  lemma RollDieFixedAgrees(g: Rng, sides: u8)
    ensures RollDie(g, sides).Ok? <==> sides < 0xff
    ensures sides < 0xff ==> RollDie(g, sides) == Ok(RollDieFixed(g, sides))
  {
  }

  /** `Rng::percentage`: `u8(0..101)`, a value in `[0, 100]`. */
  function Percentage(g: Rng): (r: (u8, Rng))
    ensures r.0 <= 100 && r.1 == g.Advance()
  {
    DrawU8(g, 0, 101).value
  }
}
