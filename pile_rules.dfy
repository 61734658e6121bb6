/**
 * The per-pile rule engine: five independent axes (suit ordering, rank
 * ordering, availability, accept and empty-accept) and the predicates that
 * evaluate them.
 *
 * In a pair `(top, bottom)` the `top` card is the one that comes first in
 * the pile, and `bottom` the one laid on it.
 */
module PileRules {
  import opened Cards

  datatype SuitOrdering = Any | Same | SameColor | AlternatingColor

  datatype RankOrdering = Any | Descending | Decrementing | Increasing | Incrementing

  datatype Availability = All | Ordered | Top

  /** `Count(n)`: accept while the pile holds fewer than `n` cards (`usize`). */
  datatype AcceptLogic = Any | None | Ordered | Count(n: nat)

  datatype EmptyAcceptLogic = Any | None | Only(rank: Rank)

  /** Rust's `u8::saturating_sub`. */
  function SaturatingSub(a: u8, b: u8): u8 {
    if a >= b then a - b else 0
  }

  datatype PileLogic = PileLogic(
    suit: SuitOrdering,
    rank: RankOrdering,
    availability: Availability,
    accept: AcceptLogic,
    emptyAccept: EmptyAcceptLogic)
  {
    predicate AreSuitsOrdered(top: Card, bottom: Card) {
      match suit
      case Any => true
      case Same => top.suit == bottom.suit
      case SameColor => top.Color() == bottom.Color()
      case AlternatingColor => top.Color() != bottom.Color()
    }

    predicate AreRanksOrdered(top: Card, bottom: Card) {
      match rank
      case Any => true
      case Descending => top.RankValue() > bottom.RankValue()
      case Decrementing => SaturatingSub(top.RankValue(), bottom.RankValue()) == 1
      case Increasing => top.RankValue() < bottom.RankValue()
      case Incrementing => SaturatingSub(bottom.RankValue(), top.RankValue()) == 1
    }

    predicate AreCardsOrdered(top: Card, bottom: Card) {
      AreSuitsOrdered(top, bottom) && AreRanksOrdered(top, bottom)
    }

    /** `windows(2).all(..)`: every window of two adjacent cards is ordered. */
    predicate AllWindowsOrdered(cards: seq<Card>)
      decreases |cards|
    {
      |cards| < 2 || (AreCardsOrdered(cards[0], cards[1]) && AllWindowsOrdered(cards[1..]))
    }

    /** A single card is ordered outright; otherwise every window is checked. */
    predicate IsSequenceOrdered(cards: seq<Card>) {
      if |cards| == 1 then true else AllWindowsOrdered(cards)
    }

    /** Whether the run `cards` may be lifted off a pile. */
    predicate IsSequenceAvailable(cards: seq<Card>) {
      match availability
      case All => true
      case Top => |cards| == 1
      case Ordered => IsSequenceOrdered(cards)
    }

    /** Whether a pile holding `cards` may take `incoming` on top. */
    predicate CanAccept(cards: seq<Card>, incoming: Card) {
      if cards == [] then
        match emptyAccept
        case Any => true
        case None => false
        case Only(r) => incoming.rank == r
      else
        match accept
        case Any => true
        case None => false
        case Ordered => AreCardsOrdered(cards[|cards| - 1], incoming)
        case Count(n) => |cards| < n
    }
  }

  /** What a builder with no axis set resolves to. */
  function PermissiveLogic(): PileLogic {
    PileLogic(SuitOrdering.Any, RankOrdering.Any, Availability.All, AcceptLogic.Any, EmptyAcceptLogic.Any)
  }

  /** The window check equals "every adjacent pair is ordered", at every length. */
  lemma {:induction false} SequenceOrderedIff(l: PileLogic, cards: seq<Card>)
    ensures l.IsSequenceOrdered(cards) <==>
      forall k :: 0 <= k < |cards| - 1 ==> l.AreCardsOrdered(cards[k], cards[k + 1])
  {
    WindowsOrderedIff(l, cards);
  }

  lemma {:induction false} WindowsOrderedIff(l: PileLogic, cards: seq<Card>)
    ensures l.AllWindowsOrdered(cards) <==>
      forall k :: 0 <= k < |cards| - 1 ==> l.AreCardsOrdered(cards[k], cards[k + 1])
    decreases |cards|
  {
    if |cards| >= 2 {
      var rest := cards[1..];
      WindowsOrderedIff(l, rest);
      assert forall k :: 0 <= k < |rest| ==> rest[k] == cards[k + 1];
    }
  }

  /** Availability per setting: `All` always, `Top` a single card, `Ordered` every adjacent pair ordered. */
  lemma SequenceAvailableIff(l: PileLogic, cards: seq<Card>)
    ensures l.availability == Availability.All ==> l.IsSequenceAvailable(cards)
    ensures l.availability == Availability.Top ==> (l.IsSequenceAvailable(cards) <==> |cards| == 1)
    ensures l.availability == Availability.Ordered ==> (l.IsSequenceAvailable(cards) <==>
      forall k :: 0 <= k < |cards| - 1 ==> l.AreCardsOrdered(cards[k], cards[k + 1]))
    ensures l.availability == Availability.Ordered && |cards| <= 1 ==> l.IsSequenceAvailable(cards)
  {
    SequenceOrderedIff(l, cards);
  }

  /** `Decrementing` holds exactly when `top` is one rank above `bottom`; `Incrementing` mirrors it. */
  lemma SaturatingRankOrders(l: PileLogic, top: Card, bottom: Card)
    ensures l.rank == RankOrdering.Decrementing ==>
      (l.AreRanksOrdered(top, bottom) <==> top.RankValue() as int == bottom.RankValue() as int + 1)
    ensures l.rank == RankOrdering.Incrementing ==>
      (l.AreRanksOrdered(top, bottom) <==> bottom.RankValue() as int == top.RankValue() as int + 1)
  {
  }

  /** King on Queen is decrementing; Ace on King is not, since 1 - 13 saturates to 0. */
  lemma DecrementingExamples(l: PileLogic, s: Suit, t: Suit)
    requires l.rank == RankOrdering.Decrementing
    ensures l.AreRanksOrdered(Card(s, King), Card(t, Queen))
    ensures !l.AreRanksOrdered(Card(s, Ace), Card(t, King))
    ensures !l.AreRanksOrdered(Card(s, Queen), Card(t, King))
  {
  }

  /** An empty pile consults only the empty-accept axis. */
  lemma EmptyPileAccept(l: PileLogic, incoming: Card, other: PileLogic)
    requires other.emptyAccept == l.emptyAccept
    ensures l.CanAccept([], incoming) == other.CanAccept([], incoming)
    ensures l.emptyAccept == EmptyAcceptLogic.Any ==> l.CanAccept([], incoming)
    ensures l.emptyAccept == EmptyAcceptLogic.None ==> !l.CanAccept([], incoming)
    ensures l.emptyAccept.Only? ==> (l.CanAccept([], incoming) <==> incoming.rank == l.emptyAccept.rank)
  {
  }

  /** A non-empty pile consults only the accept axis; `Count(n)` ignores the card. */
  lemma NonEmptyPileAccept(l: PileLogic, cards: seq<Card>, incoming: Card, other: PileLogic, another: Card)
    requires cards != []
    requires other.accept == l.accept && other.suit == l.suit && other.rank == l.rank
    ensures l.CanAccept(cards, incoming) == other.CanAccept(cards, incoming)
    ensures l.accept == AcceptLogic.Any ==> l.CanAccept(cards, incoming)
    ensures l.accept == AcceptLogic.None ==> !l.CanAccept(cards, incoming)
    ensures l.accept == AcceptLogic.Ordered ==>
      (l.CanAccept(cards, incoming) <==> l.AreCardsOrdered(cards[|cards| - 1], incoming))
    ensures l.accept.Count? ==> (l.CanAccept(cards, incoming) <==> |cards| < l.accept.n)
    ensures l.accept.Count? ==> l.CanAccept(cards, incoming) == l.CanAccept(cards, another)
  {
  }

  /** The permissive defaults accept every card on every pile and free every run. */
  lemma PermissiveLogicAllowsEverything(cards: seq<Card>, incoming: Card, top: Card, bottom: Card)
    ensures PermissiveLogic().CanAccept(cards, incoming)
    ensures PermissiveLogic().IsSequenceAvailable(cards)
    ensures PermissiveLogic().AreCardsOrdered(top, bottom)
  {
  }
}
