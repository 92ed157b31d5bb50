/**
 * The retrospective board: columns of card ids (a map from column id to column,
 * plus the display order of the columns) and a separate table of cards with
 * their content and vote counts. The handlers of the board component are the
 * pure transitions below; the class `BoardView` holds the component's state
 * fields and replaces them the way each handler does.
 *
 * The user-interface state the handlers consult (the card open in the modal,
 * the card chosen as merge source) is part of `BoardView`; identifiers that
 * `nanoid` would generate are parameters.
 */
module RetroBoard {
  import opened JsSupport
  import opened DragDrop

  datatype Card = Card(id: string, content: string, votes: int)
  datatype Column = Column(id: string, title: string, cards: seq<string>)
  datatype BoardState = BoardState(columns: map<string, Column>, columnOrder: seq<string>)
  type CardTable = map<string, Card>

  /** Everything the board persists: the columns and the card table. */
  datatype Retro = Retro(board: BoardState, cards: CardTable)

  /** The card chosen as the source of a merge, with the column it sits in. */
  datatype MergeSource = MergeSource(columnId: string, cardId: string)

  /** The separator placed between the two contents of merged cards. */
  const MergeSeparator: string := "\n---\n"

  /** The board a new retrospective starts with: three empty columns. */
  const InitialBoard: BoardState := BoardState(
    map[
      "column-1" := Column("column-1", "What went well", []),
      "column-2" := Column("column-2", "What can be improved", []),
      "column-3" := Column("column-3", "Action Items", [])
    ],
    ["column-1", "column-2", "column-3"])

  /** Every column is stored under its own id. */
  ghost predicate WellKeyed(b: BoardState)
  {
    forall k :: k in b.columns ==> b.columns[k].id == k
  }

  /** Every card is stored under its own id. */
  ghost predicate CardsWellKeyed(cards: CardTable)
  {
    forall k :: k in cards ==> cards[k].id == k
  }

  ghost predicate NoDuplicates(s: seq<string>)
  {
    forall i, j :: 0 <= i < j < |s| ==> s[i] != s[j]
  }

  lemma InitialBoardShape()
    ensures WellKeyed(InitialBoard) && NoDuplicates(InitialBoard.columnOrder)
    ensures InitialBoard.columns.Keys == set k | k in InitialBoard.columnOrder
    ensures forall k :: k in InitialBoard.columns ==> InitialBoard.columns[k].cards == []
  {
  }

  // ---------------------------------------------------------------------------
  // Drag and drop
  // ---------------------------------------------------------------------------

  /**
   * `onDragEnd`: a drop outside any column or back onto its own position does
   * nothing; otherwise the dragged id is taken out of the source column at the
   * source index and `draggableId` is inserted into the destination column at
   * the destination index. An unknown column id makes the handler throw before
   * it sets any state, so the board is then unchanged as well.
   */
  function DragEnd(b: BoardState, drop: DropResult): (r: BoardState)
    ensures NoMove(drop) ==> r == b
    ensures !NoMove(drop) && (drop.source.droppableId !in b.columns || drop.destination.value.droppableId !in b.columns) ==> r == b
    ensures r.columnOrder == b.columnOrder
    ensures WellKeyed(b) ==> WellKeyed(r) && r.columns.Keys == b.columns.Keys
  {
    if NoMove(drop) then b
    else
      var src, dest := drop.source, drop.destination.value;
      if src.droppableId !in b.columns || dest.droppableId !in b.columns then b
      else
        var start := b.columns[src.droppableId];
        var end := b.columns[dest.droppableId];
        if src.droppableId == dest.droppableId then
          var ids := InsertAt(RemoveAt(start.cards, src.index), dest.index, drop.draggableId);
          b.(columns := b.columns[start.id := start.(cards := ids)])
        else
          var newStart := start.(cards := RemoveAt(start.cards, src.index));
          var newEnd := end.(cards := InsertAt(end.cards, dest.index, drop.draggableId));
          b.(columns := b.columns[newStart.id := newStart][newEnd.id := newEnd])
  }

  /** The multiset of card ids held by the columns listed in `order`. */
  function ColumnIds(cols: map<string, Column>, order: seq<string>): multiset<string>
  {
    if order == [] then multiset{}
    else (if order[0] in cols then multiset(cols[order[0]].cards) else multiset{}) + ColumnIds(cols, order[1..])
  }

  lemma {:induction false} ColumnIdsFrame(cols: map<string, Column>, order: seq<string>, k: string, c: Column)
    requires k !in order
    ensures ColumnIds(cols[k := c], order) == ColumnIds(cols, order)
  {
    if order != [] {
      ColumnIdsFrame(cols, order[1..], k, c);
    }
  }

  /** Replacing one listed column changes the board's ids by exactly that column's difference. */
  lemma {:induction false} ColumnIdsUpdate(cols: map<string, Column>, order: seq<string>, k: string, c: Column)
    requires k in cols && k in order && NoDuplicates(order)
    ensures ColumnIds(cols[k := c], order) + multiset(cols[k].cards) == ColumnIds(cols, order) + multiset(c.cards)
  {
    var rest := order[1..];
    assert NoDuplicates(rest) by {
      forall i, j | 0 <= i < j < |rest| ensures rest[i] != rest[j] {
        assert rest[i] == order[i + 1] && rest[j] == order[j + 1];
      }
    }
    if order[0] == k {
      assert k !in rest by {
        forall i | 0 <= i < |rest| ensures rest[i] != k {
          assert rest[i] == order[i + 1];
        }
      }
      ColumnIdsFrame(cols, rest, k, c);
    } else {
      assert k in rest by {
        var i :| 0 <= i < |order| && order[i] == k;
        assert rest[i - 1] == k;
      }
      ColumnIdsUpdate(cols, rest, k, c);
      var head := if order[0] in cols then multiset(cols[order[0]].cards) else multiset{};
      assert ColumnIds(cols, order) == head + ColumnIds(cols, rest);
      assert ColumnIds(cols[k := c], order) == head + ColumnIds(cols[k := c], rest);
      calc {
        ColumnIds(cols[k := c], order) + multiset(cols[k].cards);
        head + (ColumnIds(cols[k := c], rest) + multiset(cols[k].cards));
        head + (ColumnIds(cols, rest) + multiset(c.cards));
        ColumnIds(cols, order) + multiset(c.cards);
      }
    }
  }

  /**
   * A move inside one column keeps the column's length and its multiset of ids
   * (the dragged id is the one at the source index), puts `draggableId` at the
   * destination index and keeps the other ids in their order; all other columns
   * and the column order are untouched.
   */
  lemma SameColumnMove(b: BoardState, drop: DropResult)
    requires WellKeyed(b)
    requires drop.destination.Some? && drop.destination.value.droppableId == drop.source.droppableId
    requires drop.destination.value.index != drop.source.index
    requires drop.source.droppableId in b.columns
    requires drop.source.index < |b.columns[drop.source.droppableId].cards|
    requires b.columns[drop.source.droppableId].cards[drop.source.index] == drop.draggableId
    ensures var id := drop.source.droppableId;
            var before := b.columns[id].cards;
            var after := DragEnd(b, drop).columns[id].cards;
            var at := InsertIndex(RemoveAt(before, drop.source.index), drop.destination.value.index);
            && |after| == |before| && multiset(after) == multiset(before)
            && after[at] == drop.draggableId
            && RemoveAt(after, at) == RemoveAt(before, drop.source.index)
    ensures forall k :: k in b.columns && k != drop.source.droppableId ==> DragEnd(b, drop).columns[k] == b.columns[k]
    ensures DragEnd(b, drop).columns.Keys == b.columns.Keys && DragEnd(b, drop).columnOrder == b.columnOrder
  {
    var id := drop.source.droppableId;
    var before := b.columns[id].cards;
    var removed := RemoveAt(before, drop.source.index);
    var after := InsertAt(removed, drop.destination.value.index, drop.draggableId);
    assert DragEnd(b, drop).columns[id].cards == after;
    MoveKeepsMultiset(before, drop.source.index, drop.destination.value.index, drop.draggableId);
    RemoveInsertedAt(removed, drop.destination.value.index, drop.draggableId);
  }

  /**
   * A move between two columns shortens the source list by one (the entry at
   * the source index), splices `draggableId` into the destination list at the
   * destination index with its other ids in their order, and touches no
   * other column.
   */
  lemma CrossColumnMove(b: BoardState, drop: DropResult)
    requires WellKeyed(b)
    requires drop.destination.Some? && drop.destination.value.droppableId != drop.source.droppableId
    requires drop.source.droppableId in b.columns && drop.destination.value.droppableId in b.columns
    requires drop.source.index < |b.columns[drop.source.droppableId].cards|
    ensures var r := DragEnd(b, drop);
            var from := drop.source.droppableId;
            var to := drop.destination.value.droppableId;
            && r.columns[from].cards == RemoveAt(b.columns[from].cards, drop.source.index)
            && |r.columns[from].cards| == |b.columns[from].cards| - 1
            && |r.columns[to].cards| == |b.columns[to].cards| + 1
            && r.columns[to].cards[InsertIndex(b.columns[to].cards, drop.destination.value.index)] == drop.draggableId
            && r.columns[to].cards == InsertAt(b.columns[to].cards, drop.destination.value.index, drop.draggableId)
            && (forall k :: k in b.columns && k != from && k != to ==> r.columns[k] == b.columns[k])
  {
  }

  /**
   * Id conservation: when the dragged id is the one at the source index, no
   * move (inside a column or across columns) changes the multiset of card ids
   * held by the listed columns.
   */
  lemma DragEndConservesIds(b: BoardState, drop: DropResult)
    requires WellKeyed(b) && NoDuplicates(b.columnOrder)
    requires drop.destination.Some?
    requires drop.source.droppableId in b.columns && drop.source.droppableId in b.columnOrder
    requires drop.destination.value.droppableId in b.columns && drop.destination.value.droppableId in b.columnOrder
    requires drop.source.index < |b.columns[drop.source.droppableId].cards|
    requires b.columns[drop.source.droppableId].cards[drop.source.index] == drop.draggableId
    ensures ColumnIds(DragEnd(b, drop).columns, b.columnOrder) == ColumnIds(b.columns, b.columnOrder)
  {
    if drop.destination.value == drop.source {
    } else if drop.destination.value.droppableId == drop.source.droppableId {
      SameColumnConservesIds(b, drop);
    } else {
      CrossColumnConservesIds(b, drop);
    }
  }

  /** Taking out the entry at `i` and inserting that same value anywhere keeps the multiset. */
  lemma MoveKeepsMultiset(s: seq<string>, i: nat, j: nat, x: string)
    requires i < |s| && s[i] == x
    ensures multiset(InsertAt(RemoveAt(s, i), j, x)) == multiset(s)
  {
    var m := multiset(s);
    assert x in m;
    assert multiset(RemoveAt(s, i)) + multiset{x} == m;
  }

  lemma SameColumnConservesIds(b: BoardState, drop: DropResult)
    requires WellKeyed(b) && NoDuplicates(b.columnOrder)
    requires drop.destination.Some? && drop.destination.value.droppableId == drop.source.droppableId
    requires drop.destination.value.index != drop.source.index
    requires drop.source.droppableId in b.columns && drop.source.droppableId in b.columnOrder
    requires drop.source.index < |b.columns[drop.source.droppableId].cards|
    requires b.columns[drop.source.droppableId].cards[drop.source.index] == drop.draggableId
    ensures ColumnIds(DragEnd(b, drop).columns, b.columnOrder) == ColumnIds(b.columns, b.columnOrder)
  {
    var from := drop.source.droppableId;
    var start := b.columns[from];
    var c := start.(cards := InsertAt(RemoveAt(start.cards, drop.source.index), drop.destination.value.index, drop.draggableId));
    SameColumnResult(b, drop);
    MoveKeepsMultiset(start.cards, drop.source.index, drop.destination.value.index, drop.draggableId);
    ColumnIdsUpdate(b.columns, b.columnOrder, from, c);
    MultisetCancel(ColumnIds(b.columns[from := c], b.columnOrder), ColumnIds(b.columns, b.columnOrder), multiset(start.cards));
  }

  lemma SameColumnResult(b: BoardState, drop: DropResult)
    requires WellKeyed(b)
    requires drop.destination.Some? && drop.destination.value.droppableId == drop.source.droppableId
    requires drop.destination.value.index != drop.source.index
    requires drop.source.droppableId in b.columns
    ensures var start := b.columns[drop.source.droppableId];
            DragEnd(b, drop).columns == b.columns[drop.source.droppableId := start.(cards :=
              InsertAt(RemoveAt(start.cards, drop.source.index), drop.destination.value.index, drop.draggableId))]
  {
  }

  lemma CrossColumnConservesIds(b: BoardState, drop: DropResult)
    requires WellKeyed(b) && NoDuplicates(b.columnOrder)
    requires drop.destination.Some? && drop.destination.value.droppableId != drop.source.droppableId
    requires drop.source.droppableId in b.columns && drop.source.droppableId in b.columnOrder
    requires drop.destination.value.droppableId in b.columns && drop.destination.value.droppableId in b.columnOrder
    requires drop.source.index < |b.columns[drop.source.droppableId].cards|
    requires b.columns[drop.source.droppableId].cards[drop.source.index] == drop.draggableId
    ensures ColumnIds(DragEnd(b, drop).columns, b.columnOrder) == ColumnIds(b.columns, b.columnOrder)
  {
    var from, to := drop.source.droppableId, drop.destination.value.droppableId;
    var x := drop.draggableId;
    var start, end := b.columns[from], b.columns[to];
    var newStart := start.(cards := RemoveAt(start.cards, drop.source.index));
    var newEnd := end.(cards := InsertAt(end.cards, drop.destination.value.index, x));
    var cols1 := b.columns[from := newStart];
    assert DragEnd(b, drop).columns == cols1[to := newEnd];
    var m0, m1, m2 := ColumnIds(b.columns, b.columnOrder), ColumnIds(cols1, b.columnOrder), ColumnIds(cols1[to := newEnd], b.columnOrder);
    ColumnIdsUpdate(b.columns, b.columnOrder, from, newStart);
    assert cols1[to] == end;
    ColumnIdsUpdate(cols1, b.columnOrder, to, newEnd);
    TakeOutStep(m0, m1, multiset(start.cards), multiset(newStart.cards), x);
    PutInStep(m1, m2, multiset(end.cards), multiset(newEnd.cards), x);
  }

  // ---------------------------------------------------------------------------
  // Voting
  // ---------------------------------------------------------------------------

  /** `handleVote`: an upvote adds one, a downvote subtracts one but stops at zero. */
  function Vote(cards: CardTable, cardId: string, increment: bool): (r: CardTable)
    ensures cardId !in cards ==> r == cards
    ensures cardId in cards ==>
              && r.Keys == cards.Keys
              && r[cardId].id == cards[cardId].id && r[cardId].content == cards[cardId].content
              && (increment ==> r[cardId].votes == cards[cardId].votes + 1)
              && (!increment ==> r[cardId].votes == (if cards[cardId].votes > 0 then cards[cardId].votes - 1 else 0))
    ensures forall k :: k in cards && k != cardId ==> r[k] == cards[k]
    ensures CardsWellKeyed(cards) ==> CardsWellKeyed(r)
  {
    if cardId !in cards then cards
    else
      var card := cards[cardId];
      var votes := if increment then card.votes + 1 else (if card.votes - 1 > 0 then card.votes - 1 else 0);
      cards[cardId := card.(votes := votes)]
  }

  /** Vote counts that start non-negative stay non-negative. */
  ghost predicate VotesNonNegative(cards: CardTable)
  {
    forall k :: k in cards ==> cards[k].votes >= 0
  }

  lemma VoteKeepsVotesNonNegative(cards: CardTable, cardId: string, increment: bool)
    requires VotesNonNegative(cards)
    ensures VotesNonNegative(Vote(cards, cardId, increment))
  {
  }

  /** A downvote undoes an upvote (for a non-negative count), and an upvote undoes a downvote of a positive count. */
  lemma VoteInverse(cards: CardTable, cardId: string)
    requires cardId in cards
    ensures cards[cardId].votes >= 0 ==> Vote(Vote(cards, cardId, true), cardId, false) == cards
    ensures cards[cardId].votes > 0 ==> Vote(Vote(cards, cardId, false), cardId, true) == cards
  {
    var c := cards[cardId];
    if c.votes >= 0 {
      var r := Vote(Vote(cards, cardId, true), cardId, false);
      assert r[cardId] == c;
      assert r.Keys == cards.Keys;
      assert forall k :: k in r ==> r[k] == cards[k];
    }
    if c.votes > 0 {
      var r := Vote(Vote(cards, cardId, false), cardId, true);
      assert r[cardId] == c;
      assert r.Keys == cards.Keys;
      assert forall k :: k in r ==> r[k] == cards[k];
    }
  }

  /** The vote examples of the component's tests: 3 becomes 4 on an upvote and 2 on a downvote. */
  lemma VoteExamples(cards: CardTable)
    requires "card-1" in cards && cards["card-1"].votes == 3
    ensures Vote(cards, "card-1", true)["card-1"].votes == 4
    ensures Vote(cards, "card-1", false)["card-1"].votes == 2
  {
  }

  // ---------------------------------------------------------------------------
  // Saving, deleting and merging cards
  // ---------------------------------------------------------------------------

  /** The id given to a new card, built from a fresh `nanoid` value. */
  function NewCardId(nanoid: string): (id: string)
    ensures |id| == |nanoid| + 5 && id[..5] == "card-" && id[5..] == nanoid
  {
    "card-" + nanoid
  }

  /**
   * `handleSaveCard`: blank content changes nothing; with a card open its
   * content is replaced (what is written is the open card with the new
   * content); otherwise, with a column open, a new card with no votes is added
   * to the table and its id appended to that column.
   */
  function SaveCard(s: Retro, content: string, activeCard: Option<Card>, activeColumnId: Option<string>,
                    nanoid: string): (r: Retro)
    requires !Blank(content) && activeCard.None? && Truthy(activeColumnId) ==> activeColumnId.value in s.board.columns
    ensures Blank(content) ==> r == s
    ensures activeCard.None? && !Truthy(activeColumnId) ==> r == s
    ensures WellKeyed(s.board) ==> WellKeyed(r.board) && r.board.columns.Keys == s.board.columns.Keys
    ensures r.board.columnOrder == s.board.columnOrder
  {
    if Blank(content) then s
    else match activeCard
      case Some(card) => s.(cards := s.cards[card.id := card.(content := content)])
      case None =>
        if !Truthy(activeColumnId) then s
        else
          var id := NewCardId(nanoid);
          var column := s.board.columns[activeColumnId.value];
          Retro(s.board.(columns := s.board.columns[activeColumnId.value := column.(cards := column.cards + [id])]),
                s.cards[id := Card(id, content, 0)])
  }

  /** Editing the open card replaces only its content: its id, its votes, every other card and the board stay. */
  lemma EditChangesOnlyContent(s: Retro, content: string, card: Card, activeColumnId: Option<string>, nanoid: string)
    requires !Blank(content) && card.id in s.cards && s.cards[card.id] == card
    ensures var r := SaveCard(s, content, Some(card), activeColumnId, nanoid);
            && r.board == s.board && r.cards.Keys == s.cards.Keys
            && r.cards[card.id] == Card(card.id, content, card.votes)
            && forall k :: k in s.cards && k != card.id ==> r.cards[k] == s.cards[k]
  {
  }

  /**
   * Creating a card adds exactly one table entry, under the new id, with the
   * given content and no votes, and appends that id to the end of the open
   * column only.
   */
  lemma CreateAddsOneCard(s: Retro, content: string, columnId: string, nanoid: string)
    requires !Blank(content) && columnId != "" && columnId in s.board.columns
    requires NewCardId(nanoid) !in s.cards
    ensures var r := SaveCard(s, content, None, Some(columnId), nanoid);
            var id := NewCardId(nanoid);
            && r.cards.Keys == s.cards.Keys + {id} && |r.cards| == |s.cards| + 1
            && r.cards[id] == Card(id, content, 0)
            && (forall k :: k in s.cards ==> r.cards[k] == s.cards[k])
            && r.board.columns[columnId].cards == s.board.columns[columnId].cards + [id]
            && r.board.columns[columnId].id == s.board.columns[columnId].id
            && (forall k :: k in s.board.columns && k != columnId ==> r.board.columns[k] == s.board.columns[k])
  {
  }

  /**
   * `handleDeleteCard`: with a card and column open, the card leaves the table
   * and every occurrence of its id leaves the open column.
   */
  function DeleteCard(s: Retro, activeCard: Option<Card>, activeColumnId: Option<string>): (r: Retro)
    requires activeCard.Some? && Truthy(activeColumnId) ==> activeColumnId.value in s.board.columns
    ensures !(activeCard.Some? && Truthy(activeColumnId)) ==> r == s
    ensures activeCard.Some? && Truthy(activeColumnId) ==> r.cards.Keys == s.cards.Keys - {activeCard.value.id}
    ensures WellKeyed(s.board) ==> WellKeyed(r.board) && r.board.columns.Keys == s.board.columns.Keys
    ensures r.board.columnOrder == s.board.columnOrder
  {
    if activeCard.Some? && Truthy(activeColumnId) then
      var column := s.board.columns[activeColumnId.value];
      Retro(s.board.(columns := s.board.columns[activeColumnId.value := column.(cards := RemoveAll(column.cards, activeCard.value.id))]),
            s.cards - {activeCard.value.id})
    else s
  }

  /**
   * Deleting removes the card from the table and all its occurrences from the
   * open column, keeps every other id of that column with its multiplicity and
   * leaves the other cards and columns alone.
   */
  lemma DeleteRemovesCard(s: Retro, card: Card, columnId: string)
    requires columnId != "" && columnId in s.board.columns
    ensures var r := DeleteCard(s, Some(card), Some(columnId));
            var before := s.board.columns[columnId].cards;
            var after := r.board.columns[columnId].cards;
            && card.id !in r.cards && card.id !in after
            && |after| == |before| - Count(before, card.id)
            && (forall y :: y != card.id ==> Count(after, y) == Count(before, y))
            && (forall k :: k in s.cards && k != card.id ==> r.cards[k] == s.cards[k])
            && (forall k :: k in s.board.columns && k != columnId ==> r.board.columns[k] == s.board.columns[k])
  {
    RemoveAllCounts(s.board.columns[columnId].cards, card.id);
  }

  /**
   * `mergeCards` for a chosen source: merging a card with itself, or when
   * either card is missing from the table, changes nothing. Otherwise the
   * target's content becomes target, separator, source; its votes become the
   * sum of both; the source leaves the table and its own column's list.
   * The target column id that the handler receives is not used.
   */
  function Merge(s: Retro, source: MergeSource, targetColumnId: string, targetCardId: string): (r: Retro)
    requires source.columnId in s.board.columns
    ensures source.cardId == targetCardId || source.cardId !in s.cards || targetCardId !in s.cards ==> r == s
    ensures WellKeyed(s.board) ==> WellKeyed(r.board) && r.board.columns.Keys == s.board.columns.Keys
    ensures r.board.columnOrder == s.board.columnOrder
  {
    if source.cardId == targetCardId then s
    else if source.cardId !in s.cards || targetCardId !in s.cards then s
    else
      var sourceCard := s.cards[source.cardId];
      var targetCard := s.cards[targetCardId];
      var merged := targetCard.(content := targetCard.content + MergeSeparator + sourceCard.content,
                                votes := targetCard.votes + sourceCard.votes);
      var column := s.board.columns[source.columnId];
      Retro(s.board.(columns := s.board.columns[source.columnId := column.(cards := RemoveAll(column.cards, source.cardId))]),
            s.cards[targetCardId := merged] - {source.cardId})
  }

  /**
   * A merge of two different cards that are both in the table leaves one card
   * fewer; the target keeps its id, gets the joined content and the summed
   * votes; the source is gone from the table and from its column, whose other
   * ids keep their multiplicities; nothing else changes.
   */
  lemma MergeEffect(s: Retro, source: MergeSource, targetColumnId: string, targetCardId: string)
    requires CardsWellKeyed(s.cards)
    requires source.columnId in s.board.columns
    requires source.cardId != targetCardId && source.cardId in s.cards && targetCardId in s.cards
    ensures var r := Merge(s, source, targetColumnId, targetCardId);
            var src, tgt := s.cards[source.cardId], s.cards[targetCardId];
            var before := s.board.columns[source.columnId].cards;
            var after := r.board.columns[source.columnId].cards;
            && r.cards.Keys == s.cards.Keys - {source.cardId} && |r.cards| == |s.cards| - 1
            && r.cards[targetCardId] == Card(targetCardId, tgt.content + "\n---\n" + src.content, tgt.votes + src.votes)
            && (forall k :: k in r.cards && k != targetCardId ==> r.cards[k] == s.cards[k])
            && source.cardId !in after
            && (forall y :: y != source.cardId ==> Count(after, y) == Count(before, y))
            && (forall k :: k in s.board.columns && k != source.columnId ==> r.board.columns[k] == s.board.columns[k])
  {
    RemoveAllCounts(s.board.columns[source.columnId].cards, source.cardId);
    var r := Merge(s, source, targetColumnId, targetCardId);
    assert r.cards.Keys == s.cards.Keys - {source.cardId};
  }

  // ---------------------------------------------------------------------------
  // The component's state
  // ---------------------------------------------------------------------------

  /** The board component: the persisted state plus the modal and merge selection. */
  class BoardView {
    var board: BoardState
    var cards: CardTable
    var isModalOpen: bool
    var activeCard: Option<Card>
    var activeColumnId: Option<string>
    var mergingMode: bool
    var cardToMerge: Option<MergeSource>

    /** The ids the handlers look up always name columns on the board. */
    ghost predicate Valid()
      reads this
    {
      && WellKeyed(board)
      && (Truthy(activeColumnId) ==> activeColumnId.value in board.columns)
      && (cardToMerge.Some? ==> cardToMerge.value.columnId in board.columns)
    }

    constructor ()
      ensures Valid()
      ensures board == InitialBoard && cards == map[]
      ensures !isModalOpen && activeCard.None? && activeColumnId.None? && !mergingMode && cardToMerge.None?
    {
      board := InitialBoard;
      cards := map[];
      isModalOpen := false;
      activeCard := None;
      activeColumnId := None;
      mergingMode := false;
      cardToMerge := None;
    }

    method OnDragEnd(drop: DropResult)
      requires Valid()
      modifies this`board
      ensures Valid() && board == DragEnd(old(board), drop)
    {
      board := DragEnd(board, drop);
    }

    method HandleVote(columnId: string, cardId: string, increment: bool)
      modifies this`cards
      ensures cards == Vote(old(cards), cardId, increment)
    {
      cards := Vote(cards, cardId, increment);
    }

    /** `openCardModal`: opens the modal on a column, with the card when its (non-empty) id is in the table. */
    method OpenCardModal(columnId: string, cardId: Option<string>)
      requires Valid() && (columnId != "" ==> columnId in board.columns)
      modifies this`activeColumnId, this`activeCard, this`isModalOpen
      ensures Valid() && isModalOpen && activeColumnId == Some(columnId)
      ensures activeCard == if Truthy(cardId) && cardId.value in cards then Some(cards[cardId.value]) else None
    {
      activeColumnId := Some(columnId);
      if Truthy(cardId) && cardId.value in cards {
        activeCard := Some(cards[cardId.value]);
      } else {
        activeCard := None;
      }
      isModalOpen := true;
    }

    method HandleSaveCard(content: string, nanoid: string)
      requires Valid()
      modifies this`board, this`cards, this`isModalOpen, this`activeCard, this`activeColumnId
      ensures Valid()
      ensures Retro(board, cards) == SaveCard(Retro(old(board), old(cards)), content, old(activeCard), old(activeColumnId), nanoid)
      ensures !isModalOpen && activeCard.None? && activeColumnId.None?
    {
      var r := SaveCard(Retro(board, cards), content, activeCard, activeColumnId, nanoid);
      assert WellKeyed(r.board) && r.board.columns.Keys == board.columns.Keys;
      board, cards := r.board, r.cards;
      isModalOpen, activeCard, activeColumnId := false, None, None;
    }

    method HandleDeleteCard()
      requires Valid()
      modifies this`board, this`cards, this`isModalOpen, this`activeCard, this`activeColumnId
      ensures Valid()
      ensures Retro(board, cards) == DeleteCard(Retro(old(board), old(cards)), old(activeCard), old(activeColumnId))
      ensures !isModalOpen && activeCard.None? && activeColumnId.None?
    {
      var r := DeleteCard(Retro(board, cards), activeCard, activeColumnId);
      board, cards := r.board, r.cards;
      isModalOpen, activeCard, activeColumnId := false, None, None;
    }

    /** `startMerging`: remembers the merge source, enters merge mode and closes the modal. */
    method StartMerging(columnId: string, cardId: string)
      requires Valid() && columnId in board.columns
      modifies this`cardToMerge, this`mergingMode, this`isModalOpen
      ensures Valid() && cardToMerge == Some(MergeSource(columnId, cardId)) && mergingMode && !isModalOpen
    {
      cardToMerge := Some(MergeSource(columnId, cardId));
      mergingMode := true;
      isModalOpen := false;
    }

    /** `mergeCards`: without a merge source nothing happens; otherwise merge and leave merge mode. */
    method MergeCards(targetColumnId: string, targetCardId: string)
      requires Valid()
      modifies this`board, this`cards, this`mergingMode, this`cardToMerge
      ensures Valid()
      ensures old(cardToMerge).None? ==> board == old(board) && cards == old(cards) && mergingMode == old(mergingMode) && cardToMerge.None?
      ensures old(cardToMerge).Some? ==>
                && Retro(board, cards) == Merge(Retro(old(board), old(cards)), old(cardToMerge).value, targetColumnId, targetCardId)
                && !mergingMode && cardToMerge.None?
    {
      if cardToMerge.Some? {
        var r := Merge(Retro(board, cards), cardToMerge.value, targetColumnId, targetCardId);
        board, cards := r.board, r.cards;
        mergingMode, cardToMerge := false, None;
      }
    }
  }
}
