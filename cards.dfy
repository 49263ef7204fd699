/** Playing cards and the multi-pack deck shared by the card games. */
module Cards {
  import Shuffling

  datatype CardType =
    | Ace | Two | Three | Four | Five | Six | Seven
    | Eight | Nine | Ten | Jack | Queen | King | Joker

  predicate IsFaceCard(t: CardType)
  {
    t == Jack || t == Queen || t == King
  }

  datatype Suit = Hearts | Diamonds | Clubs | Spades

  /** Every suit is exactly one of red and black. */
  predicate IsRed(s: Suit)
    ensures IsRed(s) <==> !IsBlack(s)
  {
    s == Hearts || s == Diamonds
  }

  predicate IsBlack(s: Suit)
  {
    s == Clubs || s == Spades
  }

  datatype Card = Card(cardType: CardType, suit: Suit)

  /** Position of a rank in the order the deck is built (Ace first, King thirteenth). */
  function RankOrdinal(t: CardType): nat
  {
    match t
    case Ace => 0 case Two => 1 case Three => 2 case Four => 3 case Five => 4
    case Six => 5 case Seven => 6 case Eight => 7 case Nine => 8 case Ten => 9
    case Jack => 10 case Queen => 11 case King => 12 case Joker => 13
  }
  /** The i-th rank of a pack; it is the inverse of RankOrdinal on Ace..King. */
  function RankAt(i: nat): (t: CardType)
    requires i < 13
    ensures t != Joker && RankOrdinal(t) == i
  {
    if i == 0 then Ace else if i == 1 then Two else if i == 2 then Three
    else if i == 3 then Four else if i == 4 then Five else if i == 5 then Six
    else if i == 6 then Seven else if i == 7 then Eight else if i == 8 then Nine
    else if i == 9 then Ten else if i == 10 then Jack else if i == 11 then Queen
    else King
  }
  /** The four cards of one rank, in the suit order Hearts, Diamonds, Spades, Clubs. */
  function RankQuad(t: CardType): seq<Card>
  {
    [Card(t, Hearts), Card(t, Diamonds), Card(t, Spades), Card(t, Clubs)]
  }
  /** The cards of the first k ranks of a pack, in build order. */
  function RankCards(k: nat): seq<Card>
    requires k <= 13
  {
    if k == 0 then [] else RankCards(k - 1) + RankQuad(RankAt(k - 1))
  }
  /** The two jokers a pack gets when jokers are enabled. */
  function JokerCards(jokers: bool): seq<Card>
  {
    if jokers then [Card(Joker, Hearts), Card(Joker, Diamonds)] else []
  }
  /** One pack, in the order `Deck::new` pushes it. */
  function Pack(jokers: bool): seq<Card>
  {
    RankCards(13) + JokerCards(jokers)
  }
  /** `decks` packs one after the other. */
  function Packs(decks: nat, jokers: bool): seq<Card>
  {
    Repeat(Pack(jokers), decks)
  }
  lemma FourSuitsCount(t: CardType, c: Card)
    ensures multiset(RankQuad(t))[c] == if c.cardType == t then 1 else 0
  {
    var m := multiset(RankQuad(t));
    assert m == multiset{Card(t, Hearts), Card(t, Diamonds), Card(t, Spades), Card(t, Clubs)};
    if c.cardType == t {
      match c.suit
      case Hearts => assert m == multiset{c} + multiset{Card(t, Diamonds), Card(t, Spades), Card(t, Clubs)};
      case Diamonds => assert m == multiset{c} + multiset{Card(t, Hearts), Card(t, Spades), Card(t, Clubs)};
      case Spades => assert m == multiset{c} + multiset{Card(t, Hearts), Card(t, Diamonds), Card(t, Clubs)};
      case Clubs => assert m == multiset{c} + multiset{Card(t, Hearts), Card(t, Diamonds), Card(t, Spades)};
    }
  }
  lemma {:induction false} RankCardsCount(k: nat, c: Card)
    requires k <= 13
    ensures |RankCards(k)| == 4 * k
    ensures multiset(RankCards(k))[c] ==
      if c.cardType != Joker && RankOrdinal(c.cardType) < k then 1 else 0
  {
    if k > 0 {
      var t := RankAt(k - 1);
      RankCardsCount(k - 1, c);
      FourSuitsCount(t, c);
      assert multiset(RankCards(k)) == multiset(RankCards(k - 1)) + multiset(RankQuad(t));
      assert c.cardType == t <==> c.cardType != Joker && RankOrdinal(c.cardType) == k - 1 by {
        if c.cardType != Joker && RankOrdinal(c.cardType) == k - 1 { OrdinalInjective(c.cardType, t); }
      }
    }
  }
  lemma OrdinalInjective(a: CardType, b: CardType)
    requires RankOrdinal(a) == RankOrdinal(b)
    ensures a == b
  {
  }
  /**
   * A pack holds each Ace..King card of each suit exactly once, one joker of
   * each red suit when jokers are enabled, and nothing else.
   */
  lemma PackCount(jokers: bool, c: Card)
    ensures |Pack(jokers)| == if jokers then 54 else 52
    ensures multiset(Pack(jokers))[c] ==
      if c.cardType != Joker then 1
      else if jokers && IsRed(c.suit) then 1
      else 0
  {
    RankCardsCount(13, c);
    assert c.cardType != Joker ==> RankOrdinal(c.cardType) < 13;
    assert multiset(Pack(jokers)) == multiset(RankCards(13)) + multiset(JokerCards(jokers));
    JokerCount(jokers, c);
  }
  lemma JokerCount(jokers: bool, c: Card)
    ensures |JokerCards(jokers)| == if jokers then 2 else 0
    ensures multiset(JokerCards(jokers))[c] ==
      if jokers && c.cardType == Joker && IsRed(c.suit) then 1 else 0
  {
    if jokers {
      assert multiset(JokerCards(jokers)) == multiset{Card(Joker, Hearts)} + multiset{Card(Joker, Diamonds)};
    }
  }
  function Repeat<T>(s: seq<T>, n: nat): seq<T>
  {
    if n == 0 then [] else Repeat(s, n - 1) + s
  }
  lemma {:induction false} RepeatCount<T>(s: seq<T>, n: nat, x: T)
    ensures |Repeat(s, n)| == n * |s|
    ensures multiset(Repeat(s, n))[x] == n * multiset(s)[x]
  {
    if n > 0 {
      RepeatCount(s, n - 1, x);
      assert multiset(Repeat(s, n)) == multiset(Repeat(s, n - 1)) + multiset(s);
      MulStep(n, |s|);
      MulStep(n, multiset(s)[x]);
    }
  }
  lemma MulStep(n: nat, k: nat)
    requires n > 0
    ensures n * k == (n - 1) * k + k
  {
  }
  /** `decks` packs hold `decks` copies of every card a single pack holds. */
  lemma PacksCount(decks: nat, jokers: bool, c: Card)
    ensures |Packs(decks, jokers)| == if jokers then 54 * decks else 52 * decks
    ensures multiset(Packs(decks, jokers))[c] == Copies(decks, jokers, c)
  {
    RepeatCount(Pack(jokers), decks, c);
    PackCount(jokers, c);
  }

  /** A deck built without jokers holds none. */
  lemma NoJokersWithout(decks: nat, c: Card)
    requires c in Packs(decks, false)
    ensures c.cardType != Joker
  {
    PacksCount(decks, false, c);
  }

  /** How many copies of c a deck of `decks` packs holds. */
  function Copies(decks: nat, jokers: bool, c: Card): nat
  {
    if c.cardType != Joker then decks
    else if jokers && IsRed(c.suit) then decks
    else 0
  }

  /** Any arrangement of a joker-free shoe has 52 cards per pack and no joker. */
  lemma JokerFreeShoe(decks: nat, s: seq<Card>)
    requires multiset(s) == multiset(Packs(decks, false))
    ensures |s| == 52 * decks
    ensures forall i :: 0 <= i < |s| ==> s[i].cardType != Joker
  {
    PacksCount(decks, false, Card(Ace, Hearts));
    assert |s| == |multiset(s)|;
    forall i | 0 <= i < |s| ensures s[i].cardType != Joker {
      assert s[i] in multiset(Packs(decks, false));
      NoJokersWithout(decks, s[i]);
    }
  }

  /** A deck of `decks` packs without jokers, shuffled with the given draws. */
  method ShuffledShoe(decks: nat, draws: seq<nat>) returns (d: Deck)
    requires decks < 0x100 && Shuffling.ValidDraws(52 * decks, draws)
    ensures fresh(d)
    ensures |d.cards| == 52 * decks
    ensures forall c :: multiset(d.cards)[c] == Copies(decks, false, c)
    ensures forall i :: 0 <= i < |d.cards| ==> d.cards[i].cardType != Joker
  {
    d := new Deck(decks, false);
    JokerFreeShoe(decks, d.cards);
    d.Shuffle(draws);
    JokerFreeShoe(decks, d.cards);
    forall c ensures multiset(d.cards)[c] == Copies(decks, false, c) {
      PacksCount(decks, false, c);
    }
  }

  class Deck {
    /** The undealt cards; the end of the sequence is the top of the deck. */
    var cards: seq<Card>

    /** `Deck::new`: `decks` packs, each built rank by rank. */
    constructor (decks: nat, jokers: bool)
      requires decks < 0x100
      ensures cards == Packs(decks, jokers)
    {
      var built := [];
      var d := 0;
      while d < decks
        invariant 0 <= d <= decks
        invariant built == Packs(d, jokers)
      {
        var pack := [];
        var r := 0;
        while r < 13
          invariant 0 <= r <= 13
          invariant pack == RankCards(r)
        {
          pack := pack + RankQuad(RankAt(r));
          r := r + 1;
        }
        if jokers {
          pack := pack + [Card(Joker, Hearts), Card(Joker, Diamonds)];
        }
        built := built + pack;
        d := d + 1;
      }
      cards := built;
    }

    /** Shuffles the remaining cards in place. */
    method Shuffle(draws: seq<nat>)
      requires Shuffling.ValidDraws(|cards|, draws)
      modifies this
      ensures |cards| == |old(cards)|
      ensures multiset(cards) == multiset(old(cards))
    {
      cards := Shuffling.FisherYates(cards, draws);
    }

    /** Takes the top card; the source unwraps the pop, so an empty deck is excluded. */
    method Deal() returns (c: Card)
      requires |cards| > 0
      modifies this
      ensures c == old(cards)[|old(cards)| - 1]
      ensures cards == old(cards)[..|old(cards)| - 1]
      ensures multiset(old(cards)) == multiset(cards) + multiset{c}
    {
      c := cards[|cards| - 1];
      assert cards == cards[..|cards| - 1] + [c];
      cards := cards[..|cards| - 1];
    }
  }
}
