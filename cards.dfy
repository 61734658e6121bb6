/** The optional value returned by `Vec::pop` and held in unset builder fields. */
module Options {
  datatype Option<+T> = None | Some(value: T) {
    /** The held value, or `default` when there is none (Rust's `unwrap_or`). */
    function UnwrapOr(default: T): T {
      match this
      case Some(v) => v
      case None => default
    }
  }
}

/**
 * Cards and the deck: suits, ranks, their colour and value, and a `Deck`
 * that is built suit by suit, dealt from its end and shuffled in place.
 */
module Cards {
  import opened Options

  /** Rust's `u8`: rank values are stored and compared as bytes. */
  newtype u8 = x: int | 0 <= x < 256

  datatype CardColor = Red | Black

  datatype Suit = Spades | Diamonds | Clubs | Hearts

  /** `Value(v)` carries any byte; only 2..10 are produced by the deck. */
  datatype Rank = Ace | Value(v: u8) | Jack | Queen | King {
    /** The ranks a standard deck contains. */
    predicate IsStandard() {
      Value? ==> 2 <= v <= 10
    }
  }

  datatype Card = Card(suit: Suit, rank: Rank) {
    /** Hearts and Diamonds are red, Clubs and Spades are black. */
    function Color(): (c: CardColor)
      ensures c == Red <==> suit == Hearts || suit == Diamonds
      ensures c == Black <==> suit == Clubs || suit == Spades
    {
      match suit
      case Hearts | Diamonds => Red
      case Clubs | Spades => Black
    }

    /** Ace counts 1, a numbered rank its number, Jack 11, Queen 12, King 13. */
    function RankValue(): u8 {
      match rank
      case Ace => 1
      case Value(v) => v
      case Jack => 11
      case Queen => 12
      case King => 13
    }
  }

  /** `Suit::get_ordered`: the suit order used by the deck and by foundations. */
  function OrderedSuits(): (r: seq<Suit>)
    ensures |r| == 4
    ensures forall i, j :: 0 <= i < j < |r| ==> r[i] != r[j]
  {
    [Spades, Diamonds, Clubs, Hearts]
  }

  /** Every suit has a place in the suit order. */
  lemma SuitPosition(s: Suit) returns (i: nat)
    ensures i < 4 && OrderedSuits()[i] == s
  {
    match s
    case Spades => i := 0;
    case Diamonds => i := 1;
    case Clubs => i := 2;
    case Hearts => i := 3;
  }

  /** The rank a deck builder pushes for a value in 1..13. */
  function RankFromValue(v: u8): (r: Rank)
    requires 1 <= v <= 13
    ensures r.IsStandard()
  {
    match v
    case 1 => Ace
    case 11 => Jack
    case 12 => Queen
    case 13 => King
    case _ => Value(v)
  }

  /** `RankFromValue` and `RankValue` are inverse on the standard ranks. */
  lemma RankValueRoundTrip(s: Suit, r: Rank, v: u8)
    ensures 1 <= v <= 13 ==> Card(s, RankFromValue(v)).RankValue() == v
    ensures r.IsStandard() ==> 1 <= Card(s, r).RankValue() <= 13
    ensures r.IsStandard() ==> RankFromValue(Card(s, r).RankValue()) == r
  {
  }

  /** Suits in colour order alternate black, red, black, red. */
  lemma OrderedSuitsAlternateColor(i: nat, r: Rank)
    requires i < 3
    ensures Card(OrderedSuits()[i], r).Color() != Card(OrderedSuits()[i + 1], r).Color()
  {
  }

  /** The 52 cards of one deck in the order `add_deck` pushes them. */
  function StandardDeck(): (d: seq<Card>)
    ensures |d| == 52
  {
    seq(52, i requires 0 <= i < 52 => Card(OrderedSuits()[i / 13], RankFromValue((i % 13 + 1) as u8)))
  }

  /** Suit number `s` with rank value `v` sits at index 13 * s + v - 1. */
  lemma StandardDeckAt(s: nat, v: nat)
    requires s < 4 && 1 <= v <= 13
    ensures StandardDeck()[13 * s + v - 1] == Card(OrderedSuits()[s], RankFromValue(v as u8))
  {
    var i := 13 * s + v - 1;
    assert i / 13 == s && i % 13 == v - 1 by {
      if s == 0 {} else if s == 1 {} else if s == 2 {} else {}
    }
  }

  /** A standard deck holds every standard card exactly once. */
  lemma StandardDeckIsComplete()
    ensures forall i :: 0 <= i < 52 ==> StandardDeck()[i].rank.IsStandard()
    ensures forall i, j :: 0 <= i < j < 52 ==> StandardDeck()[i] != StandardDeck()[j]
    ensures forall c: Card :: c.rank.IsStandard() ==> c in StandardDeck()
  {
    var d := StandardDeck();
    forall i, j | 0 <= i < j < 52 ensures d[i] != d[j] {
      if d[i] == d[j] {
        var vi, vj := (i % 13 + 1) as u8, (j % 13 + 1) as u8;
        RankValueRoundTrip(d[i].suit, d[i].rank, vi);
        RankValueRoundTrip(d[j].suit, d[j].rank, vj);
        assert false;
      }
    }
    forall c: Card | c.rank.IsStandard() ensures c in d {
      var s := SuitPosition(c.suit);
      var v := c.RankValue();
      RankValueRoundTrip(c.suit, c.rank, v);
      StandardDeckAt(s, v as nat);
      assert d[13 * s + v as nat - 1] == c;
    }
  }

  /** Rust's `Deck`: a growable vector of cards whose end is the top. */
  class Deck {
    var cards: seq<Card>

    /** `Deck::default`: no cards. */
    constructor Default()
      ensures cards == []
    {
      cards := [];
    }

    /** `Deck::single_deck`: one standard deck in build order. */
    constructor SingleDeck()
      ensures cards == StandardDeck()
    {
      cards := [];
      new;
      AddDeck();
    }

    /** Appends one standard deck after the present cards. */
    method AddDeck()
      modifies this
      ensures cards == old(cards) + StandardDeck()
    {
      var suits := [Spades, Diamonds, Clubs, Hearts];
      for s := 0 to 4
        invariant cards == old(cards) + StandardDeck()[..13 * s]
      {
        for rankValue := 1 to 14
          invariant cards == old(cards) + StandardDeck()[..13 * s + rankValue - 1]
        {
          StandardDeckAt(s, rankValue);
          cards := cards + [Card(suits[s], RankFromValue(rankValue as u8))];
        }
      }
    }

    /** Pops the top card; an empty deck gives `None` and stays empty. */
    method DealCard() returns (c: Option<Card>)
      modifies this
      ensures old(cards) == [] ==> c == None && cards == []
      ensures old(cards) != [] ==> c == Some(old(cards)[|old(cards)| - 1])
      ensures old(cards) == cards + (if c.Some? then [c.value] else [])
    {
      if |cards| == 0 {
        c := None;
      } else {
        c := Some(cards[|cards| - 1]);
        cards := cards[..|cards| - 1];
      }
    }

    /**
     * Fisher-Yates from the end, the algorithm of `SliceRandom::shuffle`;
     * `rng(i)` stands for the random index drawn at step `i`.
     */
    method Shuffle(rng: nat -> nat)
      modifies this
      ensures |cards| == |old(cards)|
      ensures multiset(cards) == multiset(old(cards))
    {
      var i := |cards|;
      while i > 1
        invariant 0 <= i <= |cards| == |old(cards)|
        invariant multiset(cards) == multiset(old(cards))
      {
        i := i - 1;
        var j := rng(i) % (i + 1);
        cards := cards[i := cards[j]][j := cards[i]];
      }
    }
  }
}
