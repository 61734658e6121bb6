/**
 * Piles and the board. A pile is a vector of cards (its end is the top)
 * with a fixed identity, grid location, rule set, flow and empty style; the
 * board is the ordered list of piles, with identifiers allocated as one
 * past the largest in use.
 */
module Boards {
  import opened Options
  import opened Cards
  import opened PileRules

  /** A grid coordinate, in bytes as in the source. */
  datatype BoardLocation = BoardLocation(x: u8, y: u8)

  datatype BoardItemStyle = Back | Empty | Ace(suit: Suit)

  /** Rust's `PileId(usize)`; the model does not bound it. */
  type PileId = nat

  datatype PileFlow = Stack | Down | Right

  datatype CardLocation = CardLocation(pileId: PileId, cardIdx: nat)

  /**
   * Rust's `Pile`. The board's vector owns its piles by value, so a pile is a
   * value here: its mutating methods return the updated pile, and everything
   * but `cards` is fixed once it is built.
   */
  datatype Pile = Pile(
    id: PileId,
    loc: BoardLocation,
    logic: PileLogic,
    flow: PileFlow,
    emptyStyle: BoardItemStyle,
    cards: seq<Card>)
  {
    predicate CanAcceptCard(incoming: Card) {
      logic.CanAccept(cards, incoming)
    }

    /** A run is judged by its first card only; an empty run is refused. */
    predicate CanAcceptCards(incoming: seq<Card>) {
      if |incoming| > 0 then CanAcceptCard(incoming[0]) else false
    }

    /** Whether the run starting at `targetIdx` may be lifted (slicing past the end panics). */
    predicate IsCardAvailable(targetIdx: nat)
      requires targetIdx <= |cards|
    {
      logic.IsSequenceAvailable(cards[targetIdx..])
    }

    /** `drain(target_idx..)`: the pile keeps the cards below `targetIdx` and hands over the rest, in order. */
    function TakeFromCard(targetIdx: nat): (r: (Pile, seq<Card>))
      requires targetIdx <= |cards|
      ensures r.0.cards + r.1 == cards && |r.0.cards| == targetIdx
      ensures r.0 == this.(cards := r.0.cards)
    {
      (this.(cards := cards[..targetIdx]), cards[targetIdx..])
    }

    /** `append`: lay a whole run on top, in order; nothing else about the pile changes. */
    function AddCards(incoming: seq<Card>): (p: Pile)
      ensures |p.cards| == |cards| + |incoming| && p.cards[..|cards|] == cards && p.cards[|cards|..] == incoming
      ensures p == this.(cards := p.cards)
    {
      this.(cards := cards + incoming)
    }

    /** `push`: lay one card on top. */
    function AddCard(incoming: Card): (p: Pile)
      ensures |p.cards| == |cards| + 1 && p.cards[|cards|] == incoming && p.cards[..|cards|] == cards
      ensures p == this.(cards := p.cards)
    {
      this.(cards := cards + [incoming])
    }
  }

  /** Handing a run back to the pile it was taken from restores the pile. */
  lemma TakeThenAddRestores(p: Pile, targetIdx: nat)
    requires targetIdx <= |p.cards|
    ensures p.TakeFromCard(targetIdx).0.AddCards(p.TakeFromCard(targetIdx).1) == p
  {
    var (rest, run) := p.TakeFromCard(targetIdx);
    assert rest.AddCards(run).cards == p.cards;
  }

  /** The identifiers of `piles`, in board order. */
  function IdsOf(piles: seq<Pile>): (ids: seq<PileId>)
    ensures |ids| == |piles|
    ensures forall i :: 0 <= i < |piles| ==> ids[i] == piles[i].id
  {
    seq(|piles|, i requires 0 <= i < |piles| => piles[i].id)
  }

  /** The ids of two runs of piles laid end to end. */
  lemma IdsOfConcat(a: seq<Pile>, b: seq<Pile>)
    ensures IdsOf(a + b) == IdsOf(a) + IdsOf(b)
  {
    assert forall i :: 0 <= i < |a + b| ==> IdsOf(a + b)[i] == (IdsOf(a) + IdsOf(b))[i];
  }

  predicate UniqueIds(ids: seq<PileId>) {
    forall i, j :: 0 <= i < j < |ids| ==> ids[i] != ids[j]
  }

  /** The largest identifier in use (`Iterator::max`). */
  function MaxId(ids: seq<PileId>): PileId
    requires ids != []
  {
    if |ids| == 1 then ids[0]
    else
      var rest := MaxId(ids[..|ids| - 1]);
      if ids[|ids| - 1] > rest then ids[|ids| - 1] else rest
  }

  /** `MaxId` is an element of `ids` and bounds all of them. */
  lemma {:induction false} MaxIdIsMaximum(ids: seq<PileId>)
    requires ids != []
    ensures MaxId(ids) in ids
    ensures forall i :: 0 <= i < |ids| ==> ids[i] <= MaxId(ids)
  {
    if |ids| > 1 {
      var init := ids[..|ids| - 1];
      MaxIdIsMaximum(init);
      assert forall i :: 0 <= i < |init| ==> ids[i] == init[i];
    }
  }

  /** `get_next_pile_id` on the ids in use: 0 if there are none, else one past the largest. */
  function NextPileId(ids: seq<PileId>): PileId
  {
    if ids == [] then 0 else MaxId(ids) + 1
  }

  /** The id allocated next is fresh, exceeds every id in use, and after it is used the next one is one more. */
  lemma NextPileIdIsFresh(ids: seq<PileId>)
    ensures forall i :: 0 <= i < |ids| ==> ids[i] < NextPileId(ids)
    ensures NextPileId(ids) !in ids
    ensures ids != [] ==> NextPileId(ids) - 1 in ids
    ensures UniqueIds(ids) ==> UniqueIds(ids + [NextPileId(ids)])
    ensures NextPileId(ids + [NextPileId(ids)]) == NextPileId(ids) + 1
  {
    var r := NextPileId(ids);
    var ids' := ids + [r];
    if ids != [] {
      MaxIdIsMaximum(ids);
    }
    assert ids'[..|ids|] == ids;
  }

  /** The first position holding `id` (`Iterator::find`). */
  function IndexOf(ids: seq<PileId>, id: PileId): (k: nat)
    requires id in ids
    ensures k < |ids| && ids[k] == id
    ensures forall j :: 0 <= j < k ==> ids[j] != id
  {
    if ids[0] == id then 0 else 1 + IndexOf(ids[1..], id)
  }

  /** With unique ids, the position of an id is the only one holding it. */
  lemma IndexOfUnique(ids: seq<PileId>, k: nat)
    requires UniqueIds(ids) && k < |ids|
    ensures IndexOf(ids, ids[k]) == k
  {
  }

  /** Rust's `PileBuilder`: records only the axes a caller sets. */
  class PileBuilder {
    var suit: Option<SuitOrdering>
    var rank: Option<RankOrdering>
    var availability: Option<Availability>
    var accept: Option<AcceptLogic>
    var emptyAccept: Option<EmptyAcceptLogic>
    var pileFlow: Option<PileFlow>
    var pileStyle: Option<BoardItemStyle>

    constructor ()
      ensures suit.None? && rank.None? && availability.None? && accept.None?
      ensures emptyAccept.None? && pileFlow.None? && pileStyle.None?
    {
      suit, rank, availability, accept := Option.None, Option.None, Option.None, Option.None;
      emptyAccept, pileFlow, pileStyle := Option.None, Option.None, Option.None;
    }

    method WithSuitOrdering(suitOrdering: SuitOrdering)
      modifies this`suit
      ensures suit == Some(suitOrdering)
    {
      suit := Some(suitOrdering);
    }

    method WithRankOrdering(rankOrdering: RankOrdering)
      modifies this`rank
      ensures rank == Some(rankOrdering)
    {
      rank := Some(rankOrdering);
    }

    method WithAvailability(availability: Availability)
      modifies this`availability
      ensures this.availability == Some(availability)
    {
      this.availability := Some(availability);
    }

    method WithAccept(accept: AcceptLogic)
      modifies this`accept
      ensures this.accept == Some(accept)
    {
      this.accept := Some(accept);
    }

    method WithEmptyAccept(emptyAccept: EmptyAcceptLogic)
      modifies this`emptyAccept
      ensures this.emptyAccept == Some(emptyAccept)
    {
      this.emptyAccept := Some(emptyAccept);
    }

    method WithPileFlow(pileFlow: PileFlow)
      modifies this`pileFlow
      ensures this.pileFlow == Some(pileFlow)
    {
      this.pileFlow := Some(pileFlow);
    }

    method WithPileStyle(pileStyle: BoardItemStyle)
      modifies this`pileStyle
      ensures this.pileStyle == Some(pileStyle)
    {
      this.pileStyle := Some(pileStyle);
    }

    /** Unset axes resolve to their permissive defaults, and only here. */
    function BuildLogic(): PileLogic
      reads this
    {
      PileLogic(
        suit.UnwrapOr(SuitOrdering.Any),
        rank.UnwrapOr(RankOrdering.Any),
        availability.UnwrapOr(Availability.All),
        accept.UnwrapOr(AcceptLogic.Any),
        emptyAccept.UnwrapOr(EmptyAcceptLogic.Any))
    }

    /** A new, empty pile with the resolved logic, flow `Down` and style `Empty` by default. */
    function BuildPile(id: PileId, loc: BoardLocation): (pile: Pile)
      reads this
      ensures pile.id == id && pile.loc == loc && pile.cards == [] && pile.logic == BuildLogic()
      ensures pileFlow.None? ==> pile.flow == PileFlow.Down
      ensures pileStyle.None? ==> pile.emptyStyle == BoardItemStyle.Empty
      ensures pileFlow.Some? ==> pile.flow == pileFlow.value
      ensures pileStyle.Some? ==> pile.emptyStyle == pileStyle.value
    {
      var logic := BuildLogic();
      Pile(id, loc, logic, pileFlow.UnwrapOr(PileFlow.Down), pileStyle.UnwrapOr(BoardItemStyle.Empty), [])
    }
  }

  /** An axis left unset behaves as the permissive default, whatever else is set. */
  lemma UnsetAxesArePermissive(b: PileBuilder, cards: seq<Card>, incoming: Card, top: Card, bottom: Card)
    ensures b.suit.None? ==> b.BuildLogic().AreSuitsOrdered(top, bottom)
    ensures b.rank.None? ==> b.BuildLogic().AreRanksOrdered(top, bottom)
    ensures b.suit.None? && b.rank.None? ==> b.BuildLogic().AreCardsOrdered(top, bottom)
    ensures b.availability.None? ==> b.BuildLogic().IsSequenceAvailable(cards)
    ensures b.accept.None? && cards != [] ==> b.BuildLogic().CanAccept(cards, incoming)
    ensures b.emptyAccept.None? && cards == [] ==> b.BuildLogic().CanAccept(cards, incoming)
    ensures b.suit.None? && b.rank.None? && b.availability.None? && b.accept.None? && b.emptyAccept.None?
      ==> b.BuildLogic() == PermissiveLogic()
  {
  }

  /** Rust's `Board`: the piles in creation order. */
  class Board {
    var piles: seq<Pile>

    constructor Default()
      ensures piles == []
    {
      piles := [];
    }

    function Ids(): (ids: seq<PileId>)
      reads this
    {
      IdsOf(piles)
    }

    /** Pile ids are unique. */
    ghost predicate Valid()
      reads this
    {
      UniqueIds(Ids())
    }

    /** `get_next_pile_id`: one past the largest id in use, 0 on an empty board. */
    function GetNextPileId(): PileId
      reads this
    {
      NextPileId(Ids())
    }

    /** `add_pile`: push at the end. */
    method AddPile(pile: Pile)
      modifies this
      ensures piles == old(piles) + [pile]
    {
      piles := piles + [pile];
    }

    /** `create_pile`: builds an empty pile under the next id, appends it, and returns the id. */
    method CreatePile(loc: BoardLocation, builder: PileBuilder) returns (id: PileId)
      modifies this
      ensures old(Valid()) ==> Valid()
      ensures id == old(GetNextPileId()) && id !in old(Ids())
      ensures piles == old(piles) + [builder.BuildPile(id, loc)]
      ensures GetNextPileId() == id + 1
    {
      id := GetNextPileId();
      NextPileIdIsFresh(Ids());
      var pile := builder.BuildPile(id, loc);
      AddPile(pile);
      assert Ids() == old(Ids()) + [id];
    }

    /**
     * `get_pile_mut`: the position of the first pile with this id, where the
     * returned reference points; an unknown id panics in the source.
     */
    method GetPileMut(pileId: PileId) returns (k: nat)
      requires pileId in Ids()
      ensures k == IndexOf(Ids(), pileId)
      ensures k < |piles| && piles[k].id == pileId
      ensures forall j :: 0 <= j < k ==> piles[j].id != pileId
    {
      k := 0;
      while piles[k].id != pileId
        invariant 0 <= k < |piles|
        invariant forall j :: 0 <= j < k ==> piles[j].id != pileId
        invariant pileId in Ids()[k..]
        decreases |piles| - k
      {
        k := k + 1;
      }
    }

    /** `max_board_pos`: the componentwise largest grid location, (0, 0) on an empty board. */
    method MaxBoardPos() returns (pos: BoardLocation)
      ensures piles == [] ==> pos == BoardLocation(0, 0)
      ensures forall i :: 0 <= i < |piles| ==> piles[i].loc.x <= pos.x && piles[i].loc.y <= pos.y
      ensures piles != [] ==> exists i :: 0 <= i < |piles| && piles[i].loc.x == pos.x
      ensures piles != [] ==> exists i :: 0 <= i < |piles| && piles[i].loc.y == pos.y
    {
      var x: u8, y: u8 := 0, 0;
      for i := 0 to |piles|
        invariant forall j :: 0 <= j < i ==> piles[j].loc.x <= x && piles[j].loc.y <= y
        invariant i == 0 ==> x == 0 && y == 0
        invariant i > 0 ==> exists j :: 0 <= j < i && piles[j].loc.x == x
        invariant i > 0 ==> exists j :: 0 <= j < i && piles[j].loc.y == y
      {
        x := if x >= piles[i].loc.x then x else piles[i].loc.x;
        y := if y >= piles[i].loc.y then y else piles[i].loc.y;
      }
      pos := BoardLocation(x, y);
    }
  }
}
