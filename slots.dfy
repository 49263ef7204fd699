/**
 * The `/slots` command: three weighted reels; a spin is won only when the
 * win draw (or the owner's switch) says so, and then all three reels show
 * the same symbol; a losing spin re-rolls until the reels differ.
 */
module Slots {
  import opened Wrappers
  import opened UserFiles
  import opened Bets
  import Config

  datatype SlotVariant = Cherry | Seven | Lemon | Orange | Grapes | Bell | Bar | Diamond

  /** `amount_per_reel`: the symbol's weight on a reel. */
  function AmountPerReel(v: SlotVariant): (n: nat)
    ensures 1 <= n <= 8
  {
    match v
    case Cherry => 1
    case Seven => 2
    case Lemon => 3
    case Orange => 4
    case Grapes => 5
    case Bell => 6
    case Bar => 7
    case Diamond => 8
  }

  /** `values`: every symbol once, in declaration order. */
  const Values: seq<SlotVariant> := [Cherry, Seven, Lemon, Orange, Grapes, Bell, Bar, Diamond]

  /** The sum of the weights of `vs`. */
  function Weight(vs: seq<SlotVariant>): nat
  {
    if vs == [] then 0 else Weight(vs[..|vs| - 1]) + AmountPerReel(vs[|vs| - 1])
  }

  /** The weights run 1 to 8 in `values` order, so the first k symbols weigh k(k+1)/2. */
  lemma {:induction false} PrefixWeight(k: nat)
    requires k <= |Values|
    ensures Weight(Values[..k]) == k * (k + 1) / 2
    ensures k < |Values| ==> AmountPerReel(Values[k]) == k + 1
  {
    if k > 0 {
      PrefixWeight(k - 1);
      assert Values[..k][..k - 1] == Values[..k - 1];
    }
  }

  /** All the weights together: the 36 the draw is taken below. */
  lemma TotalWeight()
    ensures Weight(Values) == 36
  {
    PrefixWeight(8);
    assert Values[..8] == Values;
  }

  /**
   * The symbol a draw r in 0..36 selects, written as the running totals of
   * the weights: Cherry takes 0, Seven 1..3, Lemon 3..6, and so on.
   */
  function Pick(r: nat): SlotVariant
  {
    if r < 1 then Cherry
    else if r < 3 then Seven
    else if r < 6 then Lemon
    else if r < 10 then Orange
    else if r < 15 then Grapes
    else if r < 21 then Bell
    else if r < 28 then Bar
    else Diamond
  }

  /**
   * `random`: the draw r is counted down by each symbol's weight in turn and
   * the symbol that takes it below zero is chosen.  Because r is below the
   * total, the loop always chooses, and the Diamond fallback after it is
   * never reached.
   */
  method Random(r: nat) returns (v: SlotVariant)
    requires r < 36
    ensures v == Pick(r)
  {
    PrefixWeight(0);
    PrefixWeight(|Values|);
    var random: int := r;
    var i := 0;
    while i < |Values|
      invariant 0 <= i <= |Values|
      invariant random == r - Weight(Values[..i]) && random >= 0
    {
      PrefixWeight(i);
      PrefixWeight(i + 1);
      assert Values[..i + 1][..i] == Values[..i];
      random := random - AmountPerReel(Values[i]);
      if random < 0 {
        return Values[i];
      }
      i := i + 1;
    }
    assert false;
    v := Diamond;
  }

  /** Each symbol takes a window of draws as wide as its weight, after the windows of the symbols before it. */
  lemma PickWindow(r: nat)
    requires r < 36
    ensures exists k :: 0 <= k < |Values| && Pick(r) == Values[k] && Weight(Values[..k]) <= r < Weight(Values[..k]) + AmountPerReel(Values[k])
  {
    var k := if r < 1 then 0 else if r < 3 then 1 else if r < 6 then 2 else if r < 10 then 3
      else if r < 15 then 4 else if r < 21 then 5 else if r < 28 then 6 else 7;
    PrefixWeight(k);
  }

  /** The three reels of a spin. */
  datatype Spin = Spin(first: SlotVariant, second: SlotVariant, third: SlotVariant)

  predicate AllSame(s: Spin)
  {
    s.first == s.second && s.second == s.third
  }

  /** The reels three draws show. */
  function SpinOf(d: (nat, nat, nat)): Spin
  {
    Spin(Pick(d.0), Pick(d.1), Pick(d.2))
  }

  predicate DrawsFit(draws: seq<(nat, nat, nat)>)
  {
    forall k :: 0 <= k < |draws| ==> draws[k].0 < 36 && draws[k].1 < 36 && draws[k].2 < 36
  }

  /** Draw k is the first whose reels differ. */
  predicate FirstLosingDraw(draws: seq<(nat, nat, nat)>, k: int)
  {
    0 <= k < |draws| && !AllSame(SpinOf(draws[k])) &&
    forall j :: 0 <= j < k ==> AllSame(SpinOf(draws[j]))
  }

  /**
   * The losing branch: three reels, rolled again as long as all three agree.
   * The source rolls for as long as it takes, so some draw must differ.
   */
  method LosingSpin(draws: seq<(nat, nat, nat)>) returns (s: Spin)
    requires DrawsFit(draws)
    requires exists k :: 0 <= k < |draws| && !AllSame(SpinOf(draws[k]))
    ensures !AllSame(s)
    ensures exists k :: FirstLosingDraw(draws, k) && s == SpinOf(draws[k])
  {
    var i := 0;
    var first := Random(draws[0].0);
    var second := Random(draws[0].1);
    var third := Random(draws[0].2);
    while first == second && second == third
      invariant 0 <= i < |draws| && Spin(first, second, third) == SpinOf(draws[i])
      invariant forall j :: 0 <= j < i ==> AllSame(SpinOf(draws[j]))
      invariant exists k :: i <= k < |draws| && !AllSame(SpinOf(draws[k]))
      decreases |draws| - i
    {
      i := i + 1;
      first := Random(draws[i].0);
      second := Random(draws[i].1);
      third := Random(draws[i].2);
    }
    s := Spin(first, second, third);
    assert FirstLosingDraw(draws, i);
  }

  /** The payout multiplier `value`, in quarters: 10, 3, 2.5, 2, 1.75, 1.5, 1 and 0.5 times the bet. */
  function Quarters(v: SlotVariant): nat
  {
    match v
    case Cherry => 40
    case Seven => 12
    case Lemon => 10
    case Orange => 8
    case Grapes => 7
    case Bell => 6
    case Bar => 4
    case Diamond => 2
  }

  /** `(amt as f32 * value) as u64`, truncating the fraction, for bets the f32 holds exactly. */
  function Winnings(bet: nat, v: SlotVariant): (w: nat)
    ensures v == Cherry ==> w == 10 * bet
    ensures v == Bar ==> w == bet
    ensures v == Diamond ==> w == bet / 2
    ensures v != Diamond ==> w >= bet
  {
    bet * Quarters(v) / 4
  }

  /** The smallest bet the command takes. */
  const MinimumBet: nat := 100

  datatype SlotsReply =
    | Confused
    | BetTooSmall
    | TooPoor
    | Won(spin: Spin, winnings: nat)
    | Lost(spin: Spin, bet: nat)

  /**
   * `run`: the bet is parsed as for blackjack and must be at least 100 and
   * within the balance.  `winDraw` is the 20% draw; a win (or a rigged
   * spin) shows one symbol three times and pays its multiple of the bet,
   * doubled under superboost, without taking the bet; a loss takes exactly
   * the bet.
   */
  method Run(raw: Option<string>, user: UserId, store: UserStore, winDraw: bool, winAlways: bool, superboost: bool,
             winPick: nat, loseDraws: seq<(nat, nat, nat)>) returns (reply: SlotsReply)
    requires winPick < 36 && DrawsFit(loseDraws)
    requires exists k :: 0 <= k < |loseDraws| && !AllSame(SpinOf(loseDraws[k]))
    modifies store
    ensures forall u :: u != user ==> store.Get(u) == old(store.Get(u))
    ensures raw.None? || ParseBet(raw.value, old(store.Get(user)).bananas).None? ==> reply == Confused
    ensures raw.Some? && ParseBet(raw.value, old(store.Get(user)).bananas).Some? ==>
      var bet := ParseBet(raw.value, old(store.Get(user)).bananas).value;
      (bet < MinimumBet ==> reply == BetTooSmall) &&
      (MinimumBet <= bet && old(store.Get(user)).bananas < bet ==> reply == TooPoor) &&
      (MinimumBet <= bet <= old(store.Get(user)).bananas ==>
        (reply.Won? <==> winDraw || Config.OwnerAlwaysWins(user, winAlways)) &&
        (reply.Lost? <==> !(winDraw || Config.OwnerAlwaysWins(user, winAlways))))
    ensures !reply.Won? && !reply.Lost? ==> store.Get(user) == old(store.Get(user))
    ensures reply.Won? ==>
      AllSame(reply.spin) && reply.spin.first == Pick(winPick) &&
      (var w := Winnings(ParseBet(raw.value, old(store.Get(user)).bananas).value, reply.spin.first);
       reply.winnings == (if superboost then w * Config.Superboost else w)) &&
      store.Get(user) == old(store.Get(user)).(bananas := old(store.Get(user)).bananas + reply.winnings)
    ensures reply.Lost? ==>
      !AllSame(reply.spin) && (exists k :: FirstLosingDraw(loseDraws, k) && reply.spin == SpinOf(loseDraws[k])) &&
      reply.bet == ParseBet(raw.value, old(store.Get(user)).bananas).value &&
      store.Get(user) == old(store.Get(user)).(bananas := old(store.Get(user)).bananas - reply.bet)
  {
    if raw.None? {
      return Confused;
    }
    var balance := store.Get(user).bananas;
    var amt := ParseBet(raw.value, balance);
    if amt.None? {
      return Confused;
    }
    if amt.value < MinimumBet {
      return BetTooSmall;
    }
    if balance < amt.value {
      return TooPoor;
    }
    var spin;
    if winDraw || Config.OwnerAlwaysWins(user, winAlways) {
      var slot := Random(winPick);
      spin := Spin(slot, slot, slot);
    } else {
      spin := LosingSpin(loseDraws);
    }
    if AllSame(spin) {
      var winnings := Winnings(amt.value, spin.first);
      if superboost {
        winnings := winnings * Config.Superboost;
      }
      store.AddBananas(user, winnings);
      reply := Won(spin, winnings);
    } else {
      store.RemoveBananas(user, amt.value);
      reply := Lost(spin, amt.value);
    }
  }
}
