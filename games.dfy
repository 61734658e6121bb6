/**
 * The game: a board plus at most one selected run detached from a source
 * pile, driven by select and drop events; and the FreeCell variant, which
 * lays out cells, foundations and tableau piles and deals one shuffled deck.
 *
 * `GameView` is the value a `Game` object stands for; its `HandleEvent`
 * function is the specification the `Game.HandleEvent` method is proved
 * against, and the lemmas below state what the state machine promises.
 */
module Games {
  import opened Options
  import opened Cards
  import opened PileRules
  import opened Boards

  datatype GameEvent = SelectEvent(loc: CardLocation) | DropEvent(target: Option<PileId>)

  /** A run detached from `source`, with that pile's flow for drawing it. */
  datatype SelectedPile = SelectedPile(cards: seq<Card>, flow: PileFlow, source: PileId)

  /** All cards lying on `piles`, counted with multiplicity. */
  function PilesCards(piles: seq<Pile>): multiset<Card>
  {
    if piles == [] then multiset{}
    else PilesCards(piles[..|piles| - 1]) + multiset(piles[|piles| - 1].cards)
  }

  /** The cards of `piles` with pile `k` holding `cards`: those of the other piles plus `cards`. */
  lemma PilesCardsAt(piles: seq<Pile>, k: nat, cards: seq<Card>)
    requires k < |piles|
    ensures PilesCards(piles[k := piles[k].(cards := cards)])
         == PilesCards(piles[k := piles[k].(cards := [])]) + multiset(cards)
  {
    var before, after := piles[..k], piles[k + 1..];
    var full, empty := piles[k].(cards := cards), piles[k].(cards := []);
    assert piles[k := full] == before + [full] + after;
    assert piles[k := empty] == before + [empty] + after;
    PilesCardsSingle(full);
    PilesCardsSingle(empty);
    PilesCardsConcat(before, [full]);
    PilesCardsConcat(before + [full], after);
    PilesCardsConcat(before, [empty]);
    PilesCardsConcat(before + [empty], after);
  }

  lemma PilesCardsSingle(p: Pile)
    ensures PilesCards([p]) == multiset(p.cards)
  {
    assert [p][..0] == [];
  }

  /** Everything about the piles except their cards. */
  function Layout(piles: seq<Pile>): (layout: seq<Pile>)
    ensures |layout| == |piles|
  {
    seq(|piles|, i requires 0 <= i < |piles| => piles[i].(cards := []))
  }

  datatype GameView = GameView(piles: seq<Pile>, selection: Option<SelectedPile>)
  {
    /** Pile ids are unique and a selection's source is a pile of the board. */
    predicate Valid() {
      UniqueIds(IdsOf(piles)) && (selection.Some? ==> selection.value.source in IdsOf(piles))
    }

    /** The cards on the piles together with the selected run. */
    function CardsInPlay(): multiset<Card> {
      PilesCards(piles) + if selection.Some? then multiset(selection.value.cards) else multiset{}
    }

    function PileIndex(id: PileId): nat
      requires id in IdsOf(piles)
    {
      IndexOf(IdsOf(piles), id)
    }

    /** What the source needs to avoid a panic: known pile ids and an index within the pile. */
    predicate EventDefined(e: GameEvent) {
      match e
      case SelectEvent(loc) =>
        loc.pileId in IdsOf(piles) && loc.cardIdx <= |piles[PileIndex(loc.pileId)].cards|
      case DropEvent(target) =>
        selection.Some? && target.Some? ==> target.value in IdsOf(piles)
    }

    /** `select_cards`: detach the run and make it the selection, replacing any old one. */
    function SelectCards(source: CardLocation): GameView
      requires EventDefined(SelectEvent(source))
    {
      var k := PileIndex(source.pileId);
      var (rest, run) := piles[k].TakeFromCard(source.cardIdx);
      GameView(piles[k := rest], Some(SelectedPile(run, rest.flow, rest.id)))
    }

    /** `add_selection_to_pile`: lay the selected run on `target`, then clear the selection. */
    function AddSelectionToPile(target: PileId): GameView
      requires selection.Some? ==> target in IdsOf(piles)
    {
      match selection
      case None => this
      case Some(sel) =>
        var k := PileIndex(target);
        GameView(piles[k := piles[k].AddCards(sel.cards)], Option.None)
    }

    /** `return_selection`: lay the selected run back on its source. */
    function ReturnSelection(): GameView
      requires Valid()
    {
      match selection
      case None => this
      case Some(sel) => AddSelectionToPile(sel.source)
    }

    /** `handle_event`. */
    function HandleEvent(e: GameEvent): GameView
      requires Valid() && EventDefined(e)
    {
      match e
      case SelectEvent(loc) =>
        if piles[PileIndex(loc.pileId)].IsCardAvailable(loc.cardIdx) then SelectCards(loc) else this
      case DropEvent(target) =>
        match (selection, target)
        case (Some(sel), Some(pileId)) =>
          if piles[PileIndex(pileId)].CanAcceptCards(sel.cards) then AddSelectionToPile(pileId)
          else ReturnSelection()
        case (Some(_), None) => ReturnSelection()
        case (_, _) => this
    }
  }

  /** Events change cards only: the piles keep their ids and configuration, and validity holds. */
  lemma HandleEventKeepsLayout(v: GameView, e: GameEvent)
    requires v.Valid() && v.EventDefined(e)
    ensures v.HandleEvent(e).Valid()
    ensures IdsOf(v.HandleEvent(e).piles) == IdsOf(v.piles)
    ensures Layout(v.HandleEvent(e).piles) == Layout(v.piles)
  {
    var w := v.HandleEvent(e);
    assert |w.piles| == |v.piles|;
    assert forall i :: 0 <= i < |v.piles| ==> w.piles[i].(cards := []) == v.piles[i].(cards := []);
    assert IdsOf(w.piles) == IdsOf(v.piles);
  }

  /** A successful select leaves `cards[..i]` on the pile and selects `cards[i..]`; a refused one changes nothing. */
  lemma SelectDetachesRun(v: GameView, loc: CardLocation)
    requires v.Valid() && v.EventDefined(SelectEvent(loc))
    ensures var k := v.PileIndex(loc.pileId);
      var w := v.HandleEvent(SelectEvent(loc));
      if v.piles[k].logic.IsSequenceAvailable(v.piles[k].cards[loc.cardIdx..]) then
        && w.piles[k].cards == v.piles[k].cards[..loc.cardIdx]
        && w.selection == Some(SelectedPile(v.piles[k].cards[loc.cardIdx..], v.piles[k].flow, loc.pileId))
        && w.piles[k].cards + w.selection.value.cards == v.piles[k].cards
        && forall j :: 0 <= j < |v.piles| && j != k ==> w.piles[j] == v.piles[j]
      else w == v
  {
  }

  /** An accepted drop appends the run to the target; a refused one or `DropEvent(None)` appends it to its source. */
  lemma DropPlacesRun(v: GameView, target: Option<PileId>)
    requires v.Valid() && v.EventDefined(DropEvent(target)) && v.selection.Some?
    ensures var sel := v.selection.value;
      var dest := if target.Some? && v.piles[v.PileIndex(target.value)].CanAcceptCards(sel.cards)
                  then target.value else sel.source;
      var k := v.PileIndex(dest);
      var w := v.HandleEvent(DropEvent(target));
      && w.selection == Option.None
      && |w.piles| == |v.piles|
      && w.piles[k].cards == v.piles[k].cards + sel.cards
      && forall j :: 0 <= j < |v.piles| && j != k ==> w.piles[j] == v.piles[j]
  {
  }

  /** A drop with nothing selected changes nothing. */
  lemma DropWithoutSelectionIsNoop(v: GameView, target: Option<PileId>)
    requires v.Valid() && v.selection.None?
    ensures v.EventDefined(DropEvent(target))
    ensures v.HandleEvent(DropEvent(target)) == v
  {
  }

  /** Every drop event changes at most the state it was given, and clears the selection. */
  lemma DropClearsSelection(v: GameView, target: Option<PileId>)
    requires v.Valid() && v.EventDefined(DropEvent(target))
    ensures v.HandleEvent(DropEvent(target)).selection.None?
  {
  }

  /** Selecting and then dropping nowhere puts every pile back as it was. */
  lemma SelectThenCancelRestores(v: GameView, loc: CardLocation)
    requires v.Valid() && v.selection.None? && v.EventDefined(SelectEvent(loc))
    ensures v.HandleEvent(SelectEvent(loc)).Valid()
    ensures v.HandleEvent(SelectEvent(loc)).HandleEvent(DropEvent(Option.None)) == v
  {
    var k := v.PileIndex(loc.pileId);
    var w := v.HandleEvent(SelectEvent(loc));
    HandleEventKeepsLayout(v, SelectEvent(loc));
    if w != v {
      IndexOfUnique(IdsOf(v.piles), k);
      assert v.piles[k].cards[..loc.cardIdx] + v.piles[k].cards[loc.cardIdx..] == v.piles[k].cards;
      assert w.HandleEvent(DropEvent(Option.None)).piles == v.piles;
    }
  }

  /** Selecting moves the run from the pile into the selection, card for card. */
  lemma SelectCardsMovesRun(v: GameView, loc: CardLocation)
    requires v.Valid() && v.EventDefined(SelectEvent(loc))
    ensures PilesCards(v.SelectCards(loc).piles) + multiset(v.SelectCards(loc).selection.value.cards)
         == PilesCards(v.piles)
  {
    var k := v.PileIndex(loc.pileId);
    var cards := v.piles[k].cards;
    var rest := PilesCards(v.piles[k := v.piles[k].(cards := [])]);
    PilesCardsAt(v.piles, k, cards[..loc.cardIdx]);
    PilesCardsAt(v.piles, k, cards);
    assert v.piles[k := v.piles[k].(cards := cards)] == v.piles;
    assert cards == cards[..loc.cardIdx] + cards[loc.cardIdx..];
    assert PilesCards(v.piles) == rest + multiset(cards[..loc.cardIdx]) + multiset(cards[loc.cardIdx..]);
  }

  /** Laying the selection on any known pile keeps every card in play. */
  lemma AddSelectionKeepsCards(v: GameView, target: PileId)
    requires v.selection.Some? && target in IdsOf(v.piles)
    ensures v.AddSelectionToPile(target).CardsInPlay() == v.CardsInPlay()
  {
    var k := v.PileIndex(target);
    var cards := v.piles[k].cards;
    var run := v.selection.value.cards;
    var rest := PilesCards(v.piles[k := v.piles[k].(cards := [])]);
    PilesCardsAt(v.piles, k, cards + run);
    PilesCardsAt(v.piles, k, cards);
    assert v.piles[k := v.piles[k].(cards := cards)] == v.piles;
    assert PilesCards(v.AddSelectionToPile(target).piles) == rest + multiset(cards) + multiset(run);
  }

  /** Drops, and selects made while nothing is selected, neither create nor destroy cards. */
  lemma HandleEventConservesCards(v: GameView, e: GameEvent)
    requires v.Valid() && v.EventDefined(e)
    requires e.SelectEvent? ==> v.selection.None?
    ensures v.HandleEvent(e).CardsInPlay() == v.CardsInPlay()
  {
    match e
    case SelectEvent(loc) =>
      if v.piles[v.PileIndex(loc.pileId)].IsCardAvailable(loc.cardIdx) {
        SelectCardsMovesRun(v, loc);
      }
    case DropEvent(target) =>
      if v.selection.Some? {
        var sel := v.selection.value;
        if target.Some? && v.piles[v.PileIndex(target.value)].CanAcceptCards(sel.cards) {
          AddSelectionKeepsCards(v, target.value);
        } else {
          AddSelectionKeepsCards(v, sel.source);
        }
      }
  }

  /** A select while a run is already selected drops the old run: exactly its cards leave play. */
  lemma SelectWhileSelectedLosesRun(v: GameView, loc: CardLocation)
    requires v.Valid() && v.EventDefined(SelectEvent(loc)) && v.selection.Some?
    requires v.piles[v.PileIndex(loc.pileId)].IsCardAvailable(loc.cardIdx)
    ensures v.HandleEvent(SelectEvent(loc)).CardsInPlay() + multiset(v.selection.value.cards) == v.CardsInPlay()
  {
    SelectCardsMovesRun(v, loc);
  }

  /** Events whose selects all arrive while nothing is selected. */
  predicate Admissible(v: GameView, events: seq<GameEvent>)
    requires v.Valid()
    decreases |events|
  {
    events == [] ||
    (v.EventDefined(events[0]) && (events[0].SelectEvent? ==> v.selection.None?) &&
     (HandleEventKeepsLayout(v, events[0]); Admissible(v.HandleEvent(events[0]), events[1..])))
  }

  /** The state after handling `events` in order. */
  function Run(v: GameView, events: seq<GameEvent>): (w: GameView)
    requires v.Valid() && Admissible(v, events)
    ensures w.Valid()
    decreases |events|
  {
    if events == [] then v
    else
      HandleEventKeepsLayout(v, events[0]);
      Run(v.HandleEvent(events[0]), events[1..])
  }

  /** Over any admissible run of events the cards in play never change. */
  lemma {:induction false} RunConservesCards(v: GameView, events: seq<GameEvent>)
    requires v.Valid() && Admissible(v, events)
    ensures Run(v, events).CardsInPlay() == v.CardsInPlay()
    decreases |events|
  {
    if events != [] {
      HandleEventConservesCards(v, events[0]);
      HandleEventKeepsLayout(v, events[0]);
      RunConservesCards(v.HandleEvent(events[0]), events[1..]);
    }
  }

  /** FreeCell cells: Stack flow, hold at most one card. */
  function CellLogic(): PileLogic {
    PileLogic(SuitOrdering.Any, RankOrdering.Any, Availability.All, AcceptLogic.Count(1), EmptyAcceptLogic.Any)
  }

  /** FreeCell foundations: start with an Ace, then the same suit one rank up; only the top lifts. */
  function FoundationLogic(): PileLogic {
    PileLogic(SuitOrdering.Same, RankOrdering.Incrementing, Availability.Top, AcceptLogic.Ordered, EmptyAcceptLogic.Only(Rank.Ace))
  }

  /** FreeCell tableau: alternating colours one rank down; any card on an empty pile; only the top lifts. */
  function TableauLogic(): PileLogic {
    PileLogic(SuitOrdering.AlternatingColor, RankOrdering.Decrementing, Availability.Top, AcceptLogic.Ordered, EmptyAcceptLogic.Any)
  }

  /** A cell takes any card when empty and nothing once it holds one. */
  lemma CellHoldsOneCard(cards: seq<Card>, incoming: Card)
    ensures CellLogic().CanAccept(cards, incoming) <==> cards == []
  {
  }

  /** A foundation starts with an Ace of any suit and then climbs one rank at a time in that suit. */
  lemma FoundationAcceptsAscendingSuit(cards: seq<Card>, incoming: Card)
    ensures cards == [] ==> (FoundationLogic().CanAccept(cards, incoming) <==> incoming.rank == Rank.Ace)
    ensures cards != [] ==> (FoundationLogic().CanAccept(cards, incoming) <==>
      incoming.suit == cards[|cards| - 1].suit &&
      incoming.RankValue() as int == cards[|cards| - 1].RankValue() as int + 1)
  {
  }

  /** A tableau pile takes any card when empty, else one of the other colour and one rank lower. */
  lemma TableauAcceptsDescendingAlternating(cards: seq<Card>, incoming: Card)
    ensures cards == [] ==> TableauLogic().CanAccept(cards, incoming)
    ensures cards != [] ==> (TableauLogic().CanAccept(cards, incoming) <==>
      incoming.Color() != cards[|cards| - 1].Color() &&
      cards[|cards| - 1].RankValue() as int == incoming.RankValue() as int + 1)
  {
  }

  /** Under `Top` availability, only the last card of a pile can be selected. */
  lemma TopLiftsOnlyLastCard(p: Pile, idx: nat)
    requires p.logic.availability == Availability.Top && idx <= |p.cards|
    ensures p.IsCardAvailable(idx) <==> idx == |p.cards| - 1
  {
  }

  /** The cards dealt to tableau column `j`: every eighth card, from the `j`-th on, in dealing order. */
  function Column(dealt: seq<Card>, j: nat): seq<Card>
    decreases |dealt|
  {
    if dealt == [] then []
    else Column(dealt[..|dealt| - 1], j) + if (|dealt| - 1) % 8 == j then [dealt[|dealt| - 1]] else []
  }

  /** Dealing position `n` adds a card to column `j` exactly when `n % 8 == j`. */
  lemma ColumnCountStep(n: nat, j: nat)
    requires j < 8
    ensures (n + 8 - j) / 8 == (n + 7 - j) / 8 + if n % 8 == j then 1 else 0
  {
    var a, r := n / 8, n % 8;
    assert n == 8 * a + r;
    if r >= j {
      assert n + 7 - j == 8 * a + (r + 7 - j);
    } else {
      assert n + 7 - j == 8 * (a - 1) + (r + 15 - j);
    }
  }

  /** Column `j` of `dealt` holds one card per dealing position congruent to `j` modulo 8. */
  lemma {:induction false} ColumnLength(dealt: seq<Card>, j: nat)
    requires j < 8
    ensures |Column(dealt, j)| == (|dealt| + 7 - j) / 8
    decreases |dealt|
  {
    if dealt != [] {
      ColumnLength(dealt[..|dealt| - 1], j);
      ColumnCountStep(|dealt| - 1, j);
    }
  }

  /** The `m`-th card of column `j` is the card dealt at position `8 * m + j`. */
  lemma {:induction false} ColumnAt(dealt: seq<Card>, j: nat, m: nat)
    requires j < 8 && m < |Column(dealt, j)|
    ensures 8 * m + j < |dealt| && Column(dealt, j)[m] == dealt[8 * m + j]
    decreases |dealt|
  {
    var last := |dealt| - 1;
    var init := dealt[..last];
    ColumnLength(init, j);
    if m < |Column(init, j)| {
      ColumnAt(init, j, m);
    } else {
      ColumnCountStep(last, j);
      assert last % 8 == j && m == (last + 7 - j) / 8;
      assert last == 8 * (last / 8) + j;
    }
  }

  /** The `i`-th cell of a setup whose first id is `base`. */
  function CellView(base: PileId, i: nat): Pile
    requires i < 4
  {
    Pile(base + i, BoardLocation(i as u8, 0), CellLogic(), PileFlow.Stack, BoardItemStyle.Empty, [])
  }

  /** The `i`-th foundation, for the `i`-th suit in suit order. */
  function FoundationView(base: PileId, i: nat): Pile
    requires i < 4
  {
    Pile(base + 4 + i, BoardLocation((i + 4) as u8, 0), FoundationLogic(), PileFlow.Stack,
             BoardItemStyle.Ace(OrderedSuits()[i]), [])
  }

  /** The `j`-th tableau column holding `cards`. */
  function TableauView(base: PileId, j: nat, cards: seq<Card>): Pile
    requires j < 8
  {
    Pile(base + 8 + j, BoardLocation(j as u8, 1), TableauLogic(), PileFlow.Down, BoardItemStyle.Empty, cards)
  }

  /** The four empty cells, ids from `base`. */
  function Cells(base: PileId): (ps: seq<Pile>)
    ensures |ps| == 4
  {
    seq(4, i requires 0 <= i < 4 => CellView(base, i))
  }

  /** The four empty foundations, one per suit in suit order, ids from `base + 4`. */
  function Foundations(base: PileId): (ps: seq<Pile>)
    ensures |ps| == 4
  {
    seq(4, i requires 0 <= i < 4 => FoundationView(base, i))
  }

  /** The eight tableau columns holding the cards of `dealt` round-robin, ids from `base + 8`. */
  function Tableau(base: PileId, dealt: seq<Card>): (ps: seq<Pile>)
    ensures |ps| == 8
  {
    seq(8, j requires 0 <= j < 8 => TableauView(base, j, Column(dealt, j)))
  }

  /**
   * The sixteen piles FreeCell's setup appends to the board, ids from `base`
   * on: four cells, four foundations, then eight tableau columns.
   */
  function FreeCellPiles(base: PileId, dealt: seq<Card>): (ps: seq<Pile>)
    ensures |ps| == 16
  {
    Cells(base) + Foundations(base) + Tableau(base, dealt)
  }

  /** The sixteen piles, position by position. */
  lemma FreeCellPilesAt(base: PileId, dealt: seq<Card>)
    ensures forall i :: 0 <= i < 4 ==> FreeCellPiles(base, dealt)[i] == CellView(base, i)
    ensures forall i :: 4 <= i < 8 ==> FreeCellPiles(base, dealt)[i] == FoundationView(base, i - 4)
    ensures forall i :: 8 <= i < 16 ==>
      FreeCellPiles(base, dealt)[i] == TableauView(base, i - 8, Column(dealt, i - 8))
  {
  }

  /** Dealing one more card extends exactly the column its position falls in. */
  lemma {:induction false} TableauDealStep(base: PileId, prev: seq<Card>, c: Card)
    ensures var j := |prev| % 8;
      Tableau(base, prev + [c]) == Tableau(base, prev)[j := TableauView(base, j, Column(prev, j) + [c])]
  {
    var d := prev + [c];
    assert d[..|d| - 1] == prev;
    var j := |prev| % 8;
    var lhs, rhs := Tableau(base, d), Tableau(base, prev)[j := TableauView(base, j, Column(prev, j) + [c])];
    forall m | 0 <= m < 8 ensures lhs[m] == rhs[m] {
      assert Column(d, m) == Column(prev, m) + if j == m then [c] else [];
    }
  }

  /** The piles are numbered `base`, `base + 1`, ... in board order, whatever was dealt. */
  lemma FreeCellPilesIds(base: PileId, dealt: seq<Card>, ids: seq<PileId>)
    requires forall i :: 0 <= i < |ids| ==> ids[i] < base
    requires UniqueIds(ids)
    ensures forall i :: 0 <= i < 16 ==> FreeCellPiles(base, dealt)[i].id == base + i
    ensures UniqueIds(ids + IdsOf(FreeCellPiles(base, dealt)))
  {
    FreeCellPilesAt(base, dealt);
  }

  /** The sixteen piles hold exactly the dealt cards. */
  lemma FreeCellPilesCards(base: PileId, dealt: seq<Card>)
    ensures PilesCards(FreeCellPiles(base, dealt)) == multiset(dealt)
  {
    PilesCardsConcat(Cells(base) + Foundations(base), Tableau(base, dealt));
    CellsAndFoundationsEmpty(base);
    TableauCards(base, dealt);
  }

  /** Setup leaves the cells and foundations empty. */
  lemma CellsAndFoundationsEmpty(base: PileId)
    ensures PilesCards(Cells(base) + Foundations(base)) == multiset{}
  {
    EmptyPilesCards(Cells(base) + Foundations(base));
  }

  /** The eight tableau columns hold exactly the dealt cards. */
  lemma {:induction false} TableauCards(base: PileId, dealt: seq<Card>)
    ensures PilesCards(Tableau(base, dealt)) == multiset(dealt)
    decreases |dealt|
  {
    if dealt == [] {
      EmptyPilesCards(Tableau(base, []));
    } else {
      var prev, c := dealt[..|dealt| - 1], dealt[|dealt| - 1];
      assert dealt == prev + [c];
      TableauCards(base, prev);
      TableauDealCards(base, prev, c);
    }
  }

  /** Dealing one card adds exactly that card to the tableau. */
  lemma TableauDealCards(base: PileId, prev: seq<Card>, c: Card)
    ensures PilesCards(Tableau(base, prev + [c])) == PilesCards(Tableau(base, prev)) + multiset{c}
  {
    var j := |prev| % 8;
    var t := Tableau(base, prev);
    var col := Column(prev, j);
    TableauDealStep(base, prev, c);
    assert TableauView(base, j, col + [c]) == t[j].(cards := col + [c]);
    assert t[j := t[j].(cards := col)] == t;
    PilesCardsAt(t, j, col + [c]);
    PilesCardsAt(t, j, col);
  }

  lemma {:induction false} EmptyPilesCards(ps: seq<Pile>)
    requires forall i :: 0 <= i < |ps| ==> ps[i].cards == []
    ensures PilesCards(ps) == multiset{}
    decreases |ps|
  {
    if ps != [] {
      EmptyPilesCards(ps[..|ps| - 1]);
    }
  }

  /** The cards of `a + b` are those of `a` and those of `b`. */
  lemma {:induction false} PilesCardsConcat(a: seq<Pile>, b: seq<Pile>)
    ensures PilesCards(a + b) == PilesCards(a) + PilesCards(b)
    decreases |b|
  {
    if b == [] {
      assert a + b == a;
    } else {
      var last := |b| - 1;
      assert (a + b)[..|a + b| - 1] == a + b[..last];
      PilesCardsConcat(a, b[..last]);
    }
  }

  /**
   * On one 52-card deal: tableau columns of 7, 7, 7, 7, 6, 6, 6, 6 cards,
   * the `k`-th card dealt lying at depth `k / 8` of column `k % 8`.
   */
  lemma FreeCellDealShape(base: PileId, dealt: seq<Card>)
    requires |dealt| == 52
    ensures forall i :: 0 <= i < 8 ==> FreeCellPiles(base, dealt)[i].cards == []
    ensures forall i :: 8 <= i < 16 ==> |FreeCellPiles(base, dealt)[i].cards| == if i < 12 then 7 else 6
    ensures forall k :: 0 <= k < 52 ==>
      k / 8 < |FreeCellPiles(base, dealt)[8 + k % 8].cards| &&
      FreeCellPiles(base, dealt)[8 + k % 8].cards[k / 8] == dealt[k]
  {
    var ps := FreeCellPiles(base, dealt);
    FreeCellPilesAt(base, dealt);
    forall i | 8 <= i < 16 ensures |ps[i].cards| == if i < 12 then 7 else 6 {
      ColumnLength(dealt, i - 8);
    }
    forall k | 0 <= k < 52
      ensures k / 8 < |ps[8 + k % 8].cards| && ps[8 + k % 8].cards[k / 8] == dealt[k]
    {
      ColumnLength(dealt, k % 8);
      ColumnAt(dealt, k % 8, k / 8);
    }
  }

  /** The closure FreeCell passes for a cell: Stack flow, at most one card, Empty style. */
  method ConfigureCell(builder: PileBuilder)
    requires builder.suit.None? && builder.rank.None? && builder.availability.None? && builder.emptyAccept.None?
    modifies builder
    ensures builder.BuildLogic() == CellLogic()
    ensures builder.pileFlow == Some(PileFlow.Stack) && builder.pileStyle == Some(BoardItemStyle.Empty)
  {
    builder.WithPileFlow(PileFlow.Stack);
    builder.WithAccept(AcceptLogic.Count(1));
    builder.WithPileStyle(BoardItemStyle.Empty);
  }

  /** The closure FreeCell passes for the foundation of `suit`. */
  method ConfigureFoundation(builder: PileBuilder, suit: Suit)
    modifies builder
    ensures builder.BuildLogic() == FoundationLogic()
    ensures builder.pileFlow == Some(PileFlow.Stack) && builder.pileStyle == Some(BoardItemStyle.Ace(suit))
  {
    builder.WithEmptyAccept(EmptyAcceptLogic.Only(Rank.Ace));
    builder.WithSuitOrdering(SuitOrdering.Same);
    builder.WithRankOrdering(RankOrdering.Incrementing);
    builder.WithAccept(AcceptLogic.Ordered);
    builder.WithPileStyle(BoardItemStyle.Ace(suit));
    builder.WithPileFlow(PileFlow.Stack);
    builder.WithAvailability(Availability.Top);
  }

  /** The closure FreeCell passes for a tableau column. */
  method ConfigureTableau(builder: PileBuilder)
    modifies builder
    ensures builder.BuildLogic() == TableauLogic()
    ensures builder.pileFlow == Some(PileFlow.Down) && builder.pileStyle == Some(BoardItemStyle.Empty)
  {
    builder.WithAvailability(Availability.Top);
    builder.WithSuitOrdering(SuitOrdering.AlternatingColor);
    builder.WithRankOrdering(RankOrdering.Decrementing);
    builder.WithEmptyAccept(EmptyAcceptLogic.Any);
    builder.WithPileStyle(BoardItemStyle.Empty);
    builder.WithPileFlow(PileFlow.Down);
    builder.WithAccept(AcceptLogic.Ordered);
  }

  /** `create_pile` at (`i`, 0) with the cell closure. */
  method CreateCellPile(board: Board, i: nat, ghost base: PileId) returns (id: PileId)
    requires i < 4 && board.GetNextPileId() == base + i
    modifies board
    ensures id == base + i && board.GetNextPileId() == id + 1
    ensures board.piles == old(board.piles) + [CellView(base, i)]
  {
    var loc := BoardLocation(i as u8, 0);
    var builder := new PileBuilder();
    ConfigureCell(builder);
    id := board.CreatePile(loc, builder);
  }

  /** `create_pile` at (`i + 4`, 0) with the foundation closure for the `i`-th suit. */
  method CreateFoundationPile(board: Board, i: nat, ghost base: PileId) returns (id: PileId)
    requires i < 4 && board.GetNextPileId() == base + 4 + i
    modifies board
    ensures id == base + 4 + i && board.GetNextPileId() == id + 1
    ensures board.piles == old(board.piles) + [FoundationView(base, i)]
  {
    var suit := OrderedSuits()[i];
    var loc := BoardLocation((i + 4) as u8, 0);
    var builder := new PileBuilder();
    ConfigureFoundation(builder, suit);
    id := board.CreatePile(loc, builder);
  }

  /** `create_pile` at (`i`, 1) with the tableau closure. */
  method CreateTableauPile(board: Board, i: nat, ghost base: PileId) returns (id: PileId)
    requires i < 8 && board.GetNextPileId() == base + 8 + i
    modifies board
    ensures id == base + 8 + i && board.GetNextPileId() == id + 1
    ensures board.piles == old(board.piles) + [TableauView(base, i, [])]
  {
    var loc := BoardLocation(i as u8, 1);
    var builder := new PileBuilder();
    ConfigureTableau(builder);
    id := board.CreatePile(loc, builder);
  }

  /** Rust's `FreeCell`: the ids of its three kinds of pile, filled in by setup. */
  class FreeCell {
    var cellIds: seq<PileId>
    var foundationIds: seq<PileId>
    var tableauIds: seq<PileId>

    constructor Default()
      ensures cellIds == [] && foundationIds == [] && tableauIds == []
    {
      cellIds, foundationIds, tableauIds := [], [], [];
    }

    /**
     * `setup`: lays out four cells, four foundations and eight tableau
     * columns after the board's piles, then deals a shuffled deck from its
     * top into the columns in turn. `rng` stands for the shuffle's random
     * draws; `dealt` records the cards in the order they were dealt.
     */
    method Setup(board: Board, rng: nat -> nat) returns (ghost dealt: seq<Card>)
      requires board.Valid() && tableauIds == []
      modifies this, board
      ensures board.Valid()
      ensures var base := old(board.GetNextPileId());
        && board.piles == old(board.piles) + FreeCellPiles(base, dealt)
        && cellIds == old(cellIds) + [base, base + 1, base + 2, base + 3]
        && foundationIds == old(foundationIds) + [base + 4, base + 5, base + 6, base + 7]
        && tableauIds == [base + 8, base + 9, base + 10, base + 11, base + 12, base + 13, base + 14, base + 15]
      ensures |dealt| == 52 && multiset(dealt) == multiset(StandardDeck())
    {
      ghost var before := board.piles;
      ghost var base := board.GetNextPileId();
      LayOut(board, base);
      dealt := DealShuffledDeck(board, rng, before, base);
      SetupIdsUnique(before, dealt);
    }

    /** The three loops of `setup` that create the piles. */
    method LayOut(board: Board, ghost base: PileId)
      requires board.GetNextPileId() == base && tableauIds == []
      modifies this`cellIds, this`foundationIds, this`tableauIds, board
      ensures board.piles == old(board.piles) + Cells(base) + Foundations(base) + Tableau(base, [])
      ensures cellIds == old(cellIds) + [base, base + 1, base + 2, base + 3]
      ensures foundationIds == old(foundationIds) + [base + 4, base + 5, base + 6, base + 7]
      ensures tableauIds == [base + 8, base + 9, base + 10, base + 11, base + 12, base + 13, base + 14, base + 15]
    {
      CreateCells(board, base);
      CreateFoundations(board, base);
      CreateTableau(board, base);
    }

    /** The last part of `setup`: shuffle a fresh single deck and deal all of it. */
    method DealShuffledDeck(board: Board, rng: nat -> nat, ghost before: seq<Pile>, ghost base: PileId)
      returns (ghost dealt: seq<Card>)
      requires base == NextPileId(IdsOf(before))
      requires board.piles == before + Cells(base) + Foundations(base) + Tableau(base, [])
      requires tableauIds == [base + 8, base + 9, base + 10, base + 11, base + 12, base + 13, base + 14, base + 15]
      modifies board
      ensures board.piles == before + FreeCellPiles(base, dealt)
      ensures |dealt| == 52 && multiset(dealt) == multiset(StandardDeck())
    {
      NextPileIdIsFresh(IdsOf(before));
      ghost var prefix := before + Cells(base) + Foundations(base);
      assert forall m :: 0 <= m < |prefix| ==> prefix[m].id < base + 8;
      var deck := new Deck.SingleDeck();
      deck.Shuffle(rng);
      dealt := Deal(board, deck, prefix, base);
      FreeCellPilesAfter(before, base, dealt);
    }

    /** The four cells at (0..3, 0), numbered from `base`. */
    method CreateCells(board: Board, ghost base: PileId)
      requires board.GetNextPileId() == base
      modifies this`cellIds, board
      ensures board.GetNextPileId() == base + 4
      ensures board.piles == old(board.piles) + Cells(base)
      ensures cellIds == old(cellIds) + [base, base + 1, base + 2, base + 3]
    {
      for i := 0 to 4
        invariant board.GetNextPileId() == base + i
        invariant board.piles == old(board.piles) + Cells(base)[..i]
        invariant cellIds == old(cellIds) + IdRange(base, i)
      {
        var id := CreateCellPile(board, i, base);
        AppendStep(old(board.piles), Cells(base), i);
        cellIds := cellIds + [id];
      }
      IdRangeFour(base);
    }

    /** The four foundations at (4..7, 0), one per suit in suit order, numbered from `base + 4`. */
    method CreateFoundations(board: Board, ghost base: PileId)
      requires board.GetNextPileId() == base + 4
      modifies this`foundationIds, board
      ensures board.GetNextPileId() == base + 8
      ensures board.piles == old(board.piles) + Foundations(base)
      ensures foundationIds == old(foundationIds) + [base + 4, base + 5, base + 6, base + 7]
    {
      for i := 0 to 4
        invariant board.GetNextPileId() == base + 4 + i
        invariant board.piles == old(board.piles) + Foundations(base)[..i]
        invariant foundationIds == old(foundationIds) + IdRange(base + 4, i)
      {
        var id := CreateFoundationPile(board, i, base);
        AppendStep(old(board.piles), Foundations(base), i);
        foundationIds := foundationIds + [id];
      }
      IdRangeFour(base + 4);
    }

    /** The eight tableau columns at (0..7, 1), numbered from `base + 8`. */
    method CreateTableau(board: Board, ghost base: PileId)
      requires board.GetNextPileId() == base + 8 && tableauIds == []
      modifies this`tableauIds, board
      ensures board.GetNextPileId() == base + 16
      ensures board.piles == old(board.piles) + Tableau(base, [])
      ensures tableauIds == [base + 8, base + 9, base + 10, base + 11, base + 12, base + 13, base + 14, base + 15]
    {
      for i := 0 to 8
        invariant board.GetNextPileId() == base + 8 + i
        invariant board.piles == old(board.piles) + Tableau(base, [])[..i]
        invariant tableauIds == IdRange(base + 8, i)
      {
        var id := CreateTableauPile(board, i, base);
        AppendStep(old(board.piles), Tableau(base, []), i);
        tableauIds := tableauIds + [id];
      }
      IdRangeEight(base + 8);
    }

    /**
     * `while let Some(card) = deck.deal_card()`: deals `deck` from the top,
     * the `i`-th card onto tableau column `i % 8`, until it is empty.
     */
    method Deal(board: Board, deck: Deck, ghost prefix: seq<Pile>, ghost base: PileId) returns (ghost dealt: seq<Card>)
      requires forall m :: 0 <= m < |prefix| ==> prefix[m].id < base + 8
      requires board.piles == prefix + Tableau(base, [])
      requires |tableauIds| == 8 && forall j :: 0 <= j < 8 ==> tableauIds[j] == base + 8 + j
      modifies board, deck
      ensures board.piles == prefix + Tableau(base, dealt)
      ensures deck.cards == [] && |dealt| == |old(deck.cards)| && multiset(dealt) == multiset(old(deck.cards))
      ensures forall i :: 0 <= i < |dealt| ==> dealt[i] == old(deck.cards)[|old(deck.cards)| - 1 - i]
    {
      ghost var total := deck.cards;
      dealt := [];
      var i := 0;
      var card := deck.DealCard();
      while card.Some?
        invariant i == |dealt|
        invariant board.piles == prefix + Tableau(base, dealt)
        invariant |Undealt(deck.cards, card)| + |dealt| == |total|
        invariant Undealt(deck.cards, card) == total[..|total| - |dealt|]
        invariant TopFirst(dealt, total)
        invariant multiset(Undealt(deck.cards, card)) + multiset(dealt) == multiset(total)
        invariant card.None? ==> deck.cards == []
        decreases |Undealt(deck.cards, card)|
      {
        var c := card.value;
        DealToColumn(board, prefix, base, dealt, tableauIds[i % 8], c);
        ghost var rest := deck.cards;
        DealAccounting(rest, c, dealt, multiset(total));
        DealOrder(rest, c, dealt, total);
        dealt := dealt + [c];
        i := i + 1;
        card := deck.DealCard();
      }
    }
  }

  /** Setup's piles take fresh, distinct ids, so a board with unique ids keeps them. */
  lemma SetupIdsUnique(before: seq<Pile>, dealt: seq<Card>)
    requires UniqueIds(IdsOf(before))
    ensures UniqueIds(IdsOf(before + FreeCellPiles(NextPileId(IdsOf(before)), dealt)))
  {
    var base := NextPileId(IdsOf(before));
    NextPileIdIsFresh(IdsOf(before));
    FreeCellPilesIds(base, dealt, IdsOf(before));
    IdsOfConcat(before, FreeCellPiles(base, dealt));
  }

  /** The `n` consecutive pile ids from `base`. */
  function IdRange(base: PileId, n: nat): (ids: seq<PileId>)
    ensures |ids| == n
  {
    if n == 0 then [] else IdRange(base, n - 1) + [base + n - 1]
  }

  lemma IdRangeFour(base: PileId)
    ensures IdRange(base, 4) == [base, base + 1, base + 2, base + 3]
  {
    assert IdRange(base, 2) == [base, base + 1];
  }

  lemma IdRangeEight(base: PileId)
    ensures IdRange(base, 8) == [base, base + 1, base + 2, base + 3, base + 4, base + 5, base + 6, base + 7]
  {
    IdRangeFour(base);
    IdRangeFour(base + 4);
    IdRangeSplit(base, 4, 4);
  }

  /** A range of ids splits into two consecutive ranges. */
  lemma {:induction false} IdRangeSplit(base: PileId, m: nat, n: nat)
    ensures IdRange(base, m + n) == IdRange(base, m) + IdRange(base + m, n)
  {
    if n > 0 {
      IdRangeSplit(base, m, n - 1);
    }
  }

  /** `get_pile_mut(id).add_card(c)` for the column the next card goes to. */
  method DealToColumn(board: Board, ghost prefix: seq<Pile>, ghost base: PileId, ghost dealt: seq<Card>,
                      pileId: PileId, c: Card)
    requires forall m :: 0 <= m < |prefix| ==> prefix[m].id < base + 8
    requires board.piles == prefix + Tableau(base, dealt)
    requires pileId == base + 8 + |dealt| % 8
    modifies board
    ensures board.piles == prefix + Tableau(base, dealt + [c])
  {
    var j := |dealt| % 8;
    assert board.piles[|prefix| + j] == Tableau(base, dealt)[j];
    assert board.Ids()[|prefix| + j] == pileId;
    var p := board.GetPileMut(pileId);
    DealTarget(board.piles, prefix, base, dealt, j, p);
    var pile := board.piles[p].AddCard(c);
    assert pile == TableauView(base, j, Column(dealt, j) + [c]);
    TableauDealStep(base, dealt, c);
    UpdateConcat(prefix, Tableau(base, dealt), j, pile);
    board.piles := board.piles[p := pile];
  }

  /** Growing a prefix of `layout` by its next element. */
  lemma AppendStep<T>(start: seq<T>, layout: seq<T>, i: nat)
    requires i < |layout|
    ensures start + layout[..i] + [layout[i]] == start + layout[..i + 1]
  {
    assert layout[..i + 1] == layout[..i] + [layout[i]];
  }

  lemma FreeCellPilesAfter(before: seq<Pile>, base: PileId, dealt: seq<Card>)
    ensures before + Cells(base) + Foundations(base) + Tableau(base, dealt) == before + FreeCellPiles(base, dealt)
  {
  }

  /** The cards not yet dealt: those left in the deck and the one just drawn. */
  function Undealt(deck: seq<Card>, card: Option<Card>): seq<Card> {
    deck + if card.Some? then [card.value] else []
  }

  /** Moving the drawn card `c` to the dealt cards keeps the total. */
  lemma DealAccounting(rest: seq<Card>, c: Card, dealt: seq<Card>, total: multiset<Card>)
    requires multiset(rest + [c]) + multiset(dealt) == total
    ensures multiset(rest) + multiset(dealt + [c]) == total
  {
    assert multiset(rest + [c]) == multiset(rest) + multiset{c};
    assert multiset(dealt + [c]) == multiset(dealt) + multiset{c};
  }

  /** `dealt` is the end of `total`, read from the last card backwards. */
  predicate TopFirst(dealt: seq<Card>, total: seq<Card>) {
    |dealt| <= |total| && forall i :: 0 <= i < |dealt| ==> dealt[i] == total[|total| - 1 - i]
  }

  /** Drawing `c`, the top of what is left of `total`, extends the top-first order. */
  lemma DealOrder(rest: seq<Card>, c: Card, dealt: seq<Card>, total: seq<Card>)
    requires |dealt| <= |total| && rest + [c] == total[..|total| - |dealt|]
    requires TopFirst(dealt, total)
    ensures |dealt| + 1 <= |total| && rest == total[..|total| - |dealt| - 1]
    ensures TopFirst(dealt + [c], total)
  {
    var n := |total| - |dealt|;
    assert c == (rest + [c])[n - 1] == total[n - 1];
    assert rest == (rest + [c])[..n - 1] == total[..n - 1];
  }

  /** Replacing an element past a prefix replaces it in the suffix. */
  lemma UpdateConcat<T>(prefix: seq<T>, s: seq<T>, j: nat, x: T)
    requires j < |s|
    ensures (prefix + s)[|prefix| + j := x] == prefix + s[j := x]
  {
  }

  /** The first pile carrying tableau column `j`'s id is that column. */
  lemma DealTarget(piles: seq<Pile>, prefix: seq<Pile>, base: PileId, dealt: seq<Card>, j: nat, p: nat)
    requires forall m :: 0 <= m < |prefix| ==> prefix[m].id < base + 8
    requires piles == prefix + Tableau(base, dealt) && j < 8
    requires p < |piles| && piles[p].id == base + 8 + j
    requires forall m :: 0 <= m < p ==> piles[m].id != base + 8 + j
    ensures p == |prefix| + j
  {
    assert piles[|prefix| + j].id == base + 8 + j;
  }

  /** Rust's `Game`: a board, the rules that set it up, and at most one selected run. */
  class Game {
    const logic: FreeCell
    const board: Board
    var selection: Option<SelectedPile>

    /** `create_with_logic`: an empty board and nothing selected. */
    constructor CreateWithLogic(logic: FreeCell)
      ensures this.logic == logic && fresh(board) && board.piles == [] && selection == Option.None
    {
      this.logic := logic;
      board := new Board.Default();
      selection := Option.None;
    }

    function View(): GameView
      reads this, board
    {
      GameView(board.piles, selection)
    }

    ghost predicate Valid()
      reads this, board
    {
      View().Valid()
    }

    /** `setup`: lets the rules lay out and deal the board. */
    method Setup(rng: nat -> nat) returns (ghost dealt: seq<Card>)
      requires Valid() && logic.tableauIds == []
      modifies logic, board
      ensures Valid()
      ensures var base := old(board.GetNextPileId());
        && board.piles == old(board.piles) + FreeCellPiles(base, dealt)
        && logic.cellIds == old(logic.cellIds) + [base, base + 1, base + 2, base + 3]
        && logic.foundationIds == old(logic.foundationIds) + [base + 4, base + 5, base + 6, base + 7]
        && logic.tableauIds == [base + 8, base + 9, base + 10, base + 11, base + 12, base + 13, base + 14, base + 15]
      ensures |dealt| == 52 && multiset(dealt) == multiset(StandardDeck())
    {
      dealt := logic.Setup(board, rng);
      if selection.Some? {
        var k := old(View()).PileIndex(selection.value.source);
        assert board.piles[k].id == selection.value.source;
      }
    }

    /** `select_cards`: detach the run from `source` and make it the selection. */
    method SelectCards(source: CardLocation)
      requires Valid() && View().EventDefined(SelectEvent(source))
      modifies this`selection, board
      ensures View() == old(View()).SelectCards(source)
    {
      var k := board.GetPileMut(source.pileId);
      var (rest, cards) := board.piles[k].TakeFromCard(source.cardIdx);
      board.piles := board.piles[k := rest];
      selection := Some(SelectedPile(cards, rest.flow, rest.id));
    }

    /** `add_selection_to_pile`: lay the selected run on `target` and clear the selection. */
    method AddSelectionToPile(target: PileId)
      requires selection.Some? ==> target in board.Ids()
      modifies this`selection, board
      ensures View() == old(View()).AddSelectionToPile(target)
    {
      if selection.Some? {
        var k := board.GetPileMut(target);
        board.piles := board.piles[k := board.piles[k].AddCards(selection.value.cards)];
        selection := Option.None;
      }
    }

    /** `return_selection`: lay the selected run back on its source. */
    method ReturnSelection()
      requires Valid()
      modifies this`selection, board
      ensures View() == old(View()).ReturnSelection()
    {
      if selection.Some? {
        AddSelectionToPile(selection.value.source);
      }
    }

    /** `handle_event`, proved against `GameView.HandleEvent`. */
    method HandleEvent(e: GameEvent)
      requires Valid() && View().EventDefined(e)
      modifies this`selection, board
      ensures View() == old(View()).HandleEvent(e)
      ensures Valid()
    {
      HandleEventKeepsLayout(View(), e);
      match e
      case SelectEvent(loc) =>
        var k := board.GetPileMut(loc.pileId);
        if board.piles[k].IsCardAvailable(loc.cardIdx) {
          SelectCards(loc);
        }
      case DropEvent(target) =>
        match (selection, target)
        case (Some(sel), Some(pileId)) =>
          var k := board.GetPileMut(pileId);
          if board.piles[k].CanAcceptCards(sel.cards) {
            board.piles := board.piles[k := board.piles[k].AddCards(sel.cards)];
            selection := Option.None;
          } else {
            ReturnSelection();
          }
        case (Some(_), None) =>
          ReturnSelection();
        case (_, _) =>
    }
  }

  /** The game registered under "FreeCell": `create_with_logic` on a default `FreeCell`. */
  method NewFreeCellGame() returns (game: Game)
    ensures fresh(game) && fresh(game.board) && fresh(game.logic)
    ensures game.Valid() && game.View() == GameView([], Option.None)
    ensures game.logic.cellIds == [] && game.logic.foundationIds == [] && game.logic.tableauIds == []
  {
    var logic := new FreeCell.Default();
    game := new Game.CreateWithLogic(logic);
  }
}
