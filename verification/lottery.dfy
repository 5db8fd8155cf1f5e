/** The example lottery contract (examples/lottery/src/lib.rs) as a state
    machine over its record of participants and winner.  Every operation
    that draws builds a fresh `SecureRng::new()` from the call's context,
    as the contract does. */
module Lottery {
  import opened MachineInts
  import opened Results
  import opened Stream
  import opened Seeding
  import Sampling

  /** `LotteryContract`. */
  datatype LotteryContract = LotteryContract(participants: seq<string>, winner: Option<string>)

  /** `LotteryContract::new`. */
  function New(): (st: LotteryContract)
    ensures |st.participants| == 0 && st.winner.None?
  {
    LotteryContract([], None)
  }

  /** `enter_lottery`: the name joins at the end of the list. */
  function EnterLottery(st: LotteryContract, name: string): (st': LotteryContract)
    ensures |st'.participants| == |st.participants| + 1
    ensures st'.participants[..|st.participants|] == st.participants
    ensures st'.participants[|st.participants|] == name
    ensures st'.winner == st.winner
  {
    st.(participants := st.participants + [name])
  }

  /** `pick_winner`: on an empty list `None` and no change; otherwise a
      drawn participant, which also becomes the stored winner. */
  function PickWinner(st: LotteryContract, c: Crypto, ctx: Context): (r: (LotteryContract, Option<string>))
    ensures |st.participants| == 0 <==> r.1.None?
    ensures |st.participants| == 0 ==> r.0 == st
    ensures r.1.Some? ==> r.1.value in st.participants
    ensures r.1.Some? ==> r.0.winner == r.1 && r.0.participants == st.participants
  {
    if |st.participants| == 0 then (st, None)
    else
      var (index, _) := Sampling.Index(Seeding.New(c, ctx), |st.participants|);
      var winner := if index < |st.participants| then Some(st.participants[index]) else None;
      (st.(winner := winner), winner)
  }

  /** `roll_dice`: a six-sided die; the state is untouched. */
  function RollDice(st: LotteryContract, c: Crypto, ctx: Context): (r: (LotteryContract, u8))
    ensures r.0 == st && 1 <= r.1 <= 6
  {
    var g := Seeding.New(c, ctx);
    Sampling.RollDieFixedAgrees(g, 6);
    (st, Sampling.RollDie(g, 6).value.0)
  }

  /** `flip_coin`: the state is untouched. */
  function FlipCoin(st: LotteryContract, c: Crypto, ctx: Context): (r: (LotteryContract, bool))
    ensures r.0 == st
    ensures r.1 == Sampling.FlipCoin(Seeding.New(c, ctx)).0
  {
    (st, Sampling.FlipCoin(Seeding.New(c, ctx)).0)
  }

  /** `random_percentage`: a value in `[0, 100]`; the state is untouched. */
  function RandomPercentage(st: LotteryContract, c: Crypto, ctx: Context): (r: (LotteryContract, u8))
    ensures r.0 == st && r.1 <= 100
  {
    (st, Sampling.Percentage(Seeding.New(c, ctx)).0)
  }

  /** `get_winner`. */
  function GetWinner(st: LotteryContract): Option<string>
  {
    st.winner
  }

  /** `get_participant_count`.  The cast to `u64` loses nothing, since a
      `Vec`'s length never exceeds `isize::MAX`. */
  function GetParticipantCount(st: LotteryContract): nat
  {
    |st.participants|
  }

  /** `reset_lottery`. */
  function ResetLottery(st: LotteryContract): (st': LotteryContract)
    ensures st' == New()
  {
    st.(participants := [], winner := None)
  }

  /** `draw_multiple_winners`: nothing on an empty list, otherwise
      `sample_multiple` over the participants; the state is untouched. */
  function DrawMultipleWinners(st: LotteryContract, c: Crypto, ctx: Context, count: u8): (r: (LotteryContract, seq<string>))
    ensures r.0 == st
    ensures |r.1| == if count as int <= |st.participants| then count as int else |st.participants|
    ensures |st.participants| < count as int ==> r.1 == st.participants
    ensures Sampling.DrawnWithoutReplacement(r.1, st.participants)
  {
    if |st.participants| == 0 then
      assert Sampling.Select([], st.participants) == [];
      (st, [])
    else
      (st, Sampling.SampleMultiple(Seeding.New(c, ctx), st.participants, count as usize).0)
  }

  /** `shuffle_participants`: the same participants in a shuffled order,
      with the winner untouched. */
  function ShuffleParticipants(st: LotteryContract, c: Crypto, ctx: Context): (st': LotteryContract)
    ensures |st'.participants| == |st.participants|
    ensures multiset(st'.participants) == multiset(st.participants)
    ensures st'.winner == st.winner
  {
    st.(participants := Sampling.Shuffle(Seeding.New(c, ctx), st.participants).0)
  }

  // ---------------------------------------------------------------------
  // Properties across operations
  // ---------------------------------------------------------------------

  /** Entering grows the reported count by one and leaves the reported
      winner alone. */
  lemma EnterGrowsCount(st: LotteryContract, name: string)
    ensures GetParticipantCount(EnterLottery(st, name)) == GetParticipantCount(st) + 1
    ensures GetWinner(EnterLottery(st, name)) == GetWinner(st)
  {
  }

  /** After a successful pick, `get_winner` reports the picked participant. */
  lemma PickThenGetWinner(st: LotteryContract, c: Crypto, ctx: Context)
    requires |st.participants| > 0
    ensures var (st', w) := PickWinner(st, c, ctx);
            w.Some? && GetWinner(st') == w && w.value in st.participants
            && GetParticipantCount(st') == GetParticipantCount(st)
  {
  }

  /** After a reset both getters report an empty lottery. */
  lemma ResetEmpties(st: LotteryContract)
    ensures GetParticipantCount(ResetLottery(st)) == 0
    ensures GetWinner(ResetLottery(st)).None?
  {
  }

  /** Drawn winners are distinct when the participants' names are. */
  lemma DistinctNamesGiveDistinctWinners(st: LotteryContract, c: Crypto, ctx: Context, count: u8)
    requires Sampling.Distinct(st.participants)
    ensures Sampling.Distinct(DrawMultipleWinners(st, c, ctx, count).1)
  {
    Sampling.DrawnFromDistinctAreDistinct(DrawMultipleWinners(st, c, ctx, count).1, st.participants);
  }

  /** Every drawn winner is a participant. */
  lemma WinnersAreParticipants(st: LotteryContract, c: Crypto, ctx: Context, count: u8)
    ensures forall w :: w in DrawMultipleWinners(st, c, ctx, count).1 ==> w in st.participants
  {
    Sampling.DrawnAreMembers(DrawMultipleWinners(st, c, ctx, count).1, st.participants);
  }

  /** Only positions are distinct: a name entered twice can be drawn twice. */
  lemma RepeatedNameCanWinTwice(c: Crypto, ctx: Context)
    ensures var st := EnterLottery(EnterLottery(New(), "Ann"), "Ann");
            DrawMultipleWinners(st, c, ctx, 2).1 == ["Ann", "Ann"]
  {
    var st := EnterLottery(EnterLottery(New(), "Ann"), "Ann");
    assert st.participants == ["Ann", "Ann"];
    var w := DrawMultipleWinners(st, c, ctx, 2).1;
    Sampling.DrawnAreMembers(w, st.participants);
  }

  /** The contract's own scenario: three entrants, a pick among them, and
      two distinct winners drawn from them. */
  lemma ThreeEntrantsScenario(c: Crypto, ctx: Context)
    ensures var st := EnterLottery(EnterLottery(EnterLottery(New(), "Alice"), "Bob"), "Charlie");
            && GetParticipantCount(st) == 3
            && PickWinner(st, c, ctx).1.Some?
            && PickWinner(st, c, ctx).1.value in ["Alice", "Bob", "Charlie"]
            && |DrawMultipleWinners(st, c, ctx, 2).1| == 2
            && Sampling.Distinct(DrawMultipleWinners(st, c, ctx, 2).1)
  {
    var st := EnterLottery(EnterLottery(EnterLottery(New(), "Alice"), "Bob"), "Charlie");
    assert st.participants == ["Alice", "Bob", "Charlie"];
    DistinctNamesGiveDistinctWinners(st, c, ctx, 2);
  }
}
