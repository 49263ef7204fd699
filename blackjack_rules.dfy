/**
 * Blackjack scoring and settlement: card values, the best total of a hand,
 * naturals, the split rule and what each outcome pays.
 */
module BlackjackRules {
  import opened Cards
  import Config

  type Hand = seq<Card>

  predicate IsTenValue(c: Card)
  {
    c.cardType == Ten || c.cardType == Jack || c.cardType == Queen || c.cardType == King
  }

  /** `card_value`: an ace counts 11 here, pips their face value, ten-valued cards 10, a joker 0. */
  function CardValue(c: Card): nat
  {
    match c.cardType
    case Ace => 11
    case Two => 2 case Three => 3 case Four => 4 case Five => 5
    case Six => 6 case Seven => 7 case Eight => 8 case Nine => 9
    case Ten => 10 case Jack => 10 case Queen => 10 case King => 10
    case Joker => 0
  }

  /** The value with an ace counted as 1. */
  function HardValue(c: Card): nat
  {
    if c.cardType == Ace then 1 else CardValue(c)
  }

  /** Total with every ace counted 11. */
  function RawSum(h: Hand): nat
  {
    if h == [] then 0 else RawSum(h[..|h| - 1]) + CardValue(h[|h| - 1])
  }

  /** Total with every ace counted 1. */
  function HardSum(h: Hand): nat
  {
    if h == [] then 0 else HardSum(h[..|h| - 1]) + HardValue(h[|h| - 1])
  }

  function Aces(h: Hand): nat
  {
    if h == [] then 0 else Aces(h[..|h| - 1]) + (if h[|h| - 1].cardType == Ace then 1 else 0)
  }

  lemma {:induction false} SumsRelated(h: Hand)
    ensures RawSum(h) == HardSum(h) + 10 * Aces(h)
  {
    if h != [] { SumsRelated(h[..|h| - 1]); }
  }

  lemma AppendCard(h: Hand, c: Card)
    ensures RawSum(h + [c]) == RawSum(h) + CardValue(c)
    ensures HardSum(h + [c]) == HardSum(h) + HardValue(c)
    ensures Aces(h + [c]) == Aces(h) + (if c.cardType == Ace then 1 else 0)
  {
    assert (h + [c])[..|h + [c]| - 1] == h;
  }

  /** The ace-lowering loop of `score`: count one more ace as 1 while the total is over 21. */
  function Lower(total: nat, aces: nat): nat
    decreases aces
  {
    if total > 21 && aces > 0 then Lower(total - 10, aces - 1) else total
  }

  /** `score`: the total with as many aces as possible still counted 11. */
  function Score(h: Hand): nat
  {
    Lower(RawSum(h), Aces(h))
  }

  lemma {:induction false} LowerProperties(total: nat, aces: nat, hard: nat)
    requires total == hard + 10 * aces
    ensures hard <= Lower(total, aces) <= total
    ensures (total - Lower(total, aces)) % 10 == 0
    ensures Lower(total, aces) <= 21 || Lower(total, aces) == hard
    ensures Lower(total, aces) < total ==> Lower(total, aces) > 11
    decreases aces
  {
    if total > 21 && aces > 0 {
      LowerProperties(total - 10, aces - 1, hard);
    }
  }

  /**
   * Score is the blackjack total: between the all-aces-one and all-aces-eleven
   * totals, differing from the latter by whole aces; it exceeds 21 only when
   * every ace already counts 1; and an ace is lowered only when counting it 11
   * would bust the hand.
   */
  lemma ScoreIsBestTotal(h: Hand)
    ensures HardSum(h) <= Score(h) <= RawSum(h)
    ensures (RawSum(h) - Score(h)) % 10 == 0
    ensures Score(h) <= 21 || Score(h) == HardSum(h)
    ensures Score(h) < RawSum(h) ==> Score(h) + 10 > 21
  {
    SumsRelated(h);
    LowerProperties(RawSum(h), Aces(h), HardSum(h));
  }

  predicate IsBlackjack(h: Hand)
  {
    |h| == 2 && Score(h) == 21
  }

  predicate IsBust(h: Hand)
  {
    Score(h) > 21
  }

  /** A two-card 21 is exactly an ace with a ten-valued card, in either order. */
  lemma NaturalIsAceAndTen(h: Hand)
    requires |h| == 2
    ensures IsBlackjack(h) <==>
      (h[0].cardType == Ace && IsTenValue(h[1])) || (IsTenValue(h[0]) && h[1].cardType == Ace)
  {
    assert h == [h[0]] + [h[1]];
    assert h[..1] == [h[0]];
    AppendCard([], h[0]);
    AppendCard([h[0]], h[1]);
  }

  /**
   * `can_split` on the playing hand: two cards, fewer than four hands, and a
   * pair or two ten-valued cards.  Two ten-valued cards already have equal
   * values, so the rule is "two cards of equal value".
   */
  function CanSplitHand(h: Hand, hands: nat): (r: bool)
    requires |h| >= 2
    ensures r <==> |h| == 2 && hands < 4 && CardValue(h[0]) == CardValue(h[1])
  {
    var isPair := CardValue(h[0]) == CardValue(h[1]);
    var bothTen := IsTenValue(h[0]) && IsTenValue(h[1]);
    |h| == 2 && hands < 4 && (isPair || bothTen)
  }

  /** How a hand is settled; the dealer forfeits only on the owner's always-win switch. */
  datatype HandResult = PlayerBust | Tie | PlayerWins | DealerWins | DealerForfeits

  /** `determine_winner`'s decision, checked in the source's order. */
  function Settle(hand: Hand, dealer: Hand): HandResult
  {
    if IsBust(hand) then PlayerBust
    else if Score(dealer) == Score(hand) then Tie
    else if IsBust(dealer) || Score(hand) > Score(dealer) then PlayerWins
    else DealerWins
  }

  /**
   * The decision is a sound comparison: a busted player loses even when the
   * dealer busts too, a tie is an equal unbusted total, the player wins with
   * the higher total or against a busted dealer, and the dealer wins only
   * with a higher total of at most 21.
   */
  lemma SettleSound(hand: Hand, dealer: Hand)
    ensures Settle(hand, dealer) == PlayerBust <==> Score(hand) > 21
    ensures Settle(hand, dealer) == Tie <==> Score(hand) <= 21 && Score(dealer) == Score(hand)
    ensures Settle(hand, dealer) == PlayerWins <==>
      Score(hand) <= 21 && Score(dealer) != Score(hand) && (Score(dealer) > 21 || Score(hand) > Score(dealer))
    ensures Settle(hand, dealer) == DealerWins <==>
      Score(hand) < Score(dealer) <= 21
    ensures Settle(hand, dealer) != DealerForfeits
  {
  }

  /** `(bet as f32 * 2.5).round()`: 2.5 times the bet, a half rounded up. */
  function NaturalPayout(bet: nat): (p: nat)
    ensures 2 * p == 5 * bet || 2 * p == 5 * bet + 1
  {
    (5 * bet + 1) / 2
  }

  /** Bananas credited for a settled hand: the stake comes back on a tie, doubled on a win. */
  function Payout(r: HandResult, bet: nat, natural: bool, superboost: bool): nat
  {
    var factor := if superboost then Config.Superboost else 1;
    match r
    case PlayerBust => 0
    case Tie => bet
    case PlayerWins => (if natural then NaturalPayout(bet) else 2 * bet) * factor
    case DealerWins => 0
    case DealerForfeits => 2 * bet * factor
  }

  /**
   * A lost hand pays nothing, a tie refunds the bet without boost, a plain
   * win doubles it, a natural pays 2.5 times (rounded), and superboost
   * doubles winnings only.
   */
  lemma PayoutTable(r: HandResult, bet: nat, natural: bool, superboost: bool)
    ensures r == PlayerBust || r == DealerWins ==> Payout(r, bet, natural, superboost) == 0
    ensures r == Tie ==> Payout(r, bet, natural, superboost) == bet
    ensures r == PlayerWins && !natural ==> Payout(r, bet, natural, superboost) == (if superboost then 4 * bet else 2 * bet)
    ensures r == DealerForfeits ==> Payout(r, bet, natural, superboost) == (if superboost then 4 * bet else 2 * bet)
    ensures r == PlayerWins && natural && !superboost ==>
      5 * bet <= 2 * Payout(r, bet, natural, superboost) <= 5 * bet + 1
    ensures Payout(r, bet, natural, superboost) <= 2 * (5 * bet + 1)
  {
  }
}
