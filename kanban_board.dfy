/**
 * The kanban board: an ordered list of columns, each holding an ordered list
 * of cards. Cards move between columns directly when dropped; a dropped column
 * is only recorded as a pending move, which a confirmation dialog then applies
 * or discards. New cards and new columns are added through inline forms.
 *
 * The pure functions below are the list transformations the handlers perform;
 * the class `KanbanView` holds the component's state and applies them.
 * Identifiers that `nanoid` would generate are parameters.
 */
module KanbanBoard {
  import opened JsSupport
  import opened DragDrop

  datatype KanbanCard = KanbanCard(id: string, content: string)
  datatype KanbanColumn = KanbanColumn(id: string, title: string, cards: seq<KanbanCard>)

  /** A column drop waiting for confirmation. */
  datatype PendingMove = PendingMove(source: Location, destination: Location, draggableId: string)

  /** The draggable type of the column handles. */
  const ColumnType: string := "COLUMN"

  // ---------------------------------------------------------------------------
  // Searching
  // ---------------------------------------------------------------------------

  /** `columns.findIndex(col => col.id === id)`, with `None` for `-1`. */
  function FindColumn(columns: seq<KanbanColumn>, id: string): (r: Option<nat>)
    ensures r.None? <==> forall k :: 0 <= k < |columns| ==> columns[k].id != id
    ensures r.Some? ==> r.value < |columns| && columns[r.value].id == id
                        && forall k :: 0 <= k < r.value ==> columns[k].id != id
  {
    if columns == [] then None
    else if columns[0].id == id then Some(0)
    else match FindColumn(columns[1..], id)
      case None => None
      case Some(k) => Some(k + 1)
  }

  /** `cards.find(card => card.id === id)`: the first card with that id. */
  function FindCard(cards: seq<KanbanCard>, id: string): (r: Option<KanbanCard>)
    ensures r.None? <==> forall k :: 0 <= k < |cards| ==> cards[k].id != id
    ensures r.Some? ==> exists k :: 0 <= k < |cards| && cards[k] == r.value && r.value.id == id
                                    && forall j :: 0 <= j < k ==> cards[j].id != id
  {
    if cards == [] then None
    else if cards[0].id == id then Some(cards[0])
    else
      var r := FindCard(cards[1..], id);
      if r.Some? then
        var k :| 0 <= k < |cards[1..]| && cards[1..][k] == r.value && r.value.id == id
                 && forall j :: 0 <= j < k ==> cards[1..][j].id != id;
        assert cards[k + 1] == r.value;
        r
      else r
  }

  /** `cards.filter(card => card.id !== id)`: every card with that id removed, order kept. */
  function WithoutCard(cards: seq<KanbanCard>, id: string): (r: seq<KanbanCard>)
    ensures |r| <= |cards|
  {
    if cards == [] then [] else (if cards[0].id == id then [] else [cards[0]]) + WithoutCard(cards[1..], id)
  }

  /** The filtered list holds exactly the cards whose id differs. */
  lemma {:induction false} WithoutCardMembers(cards: seq<KanbanCard>, id: string)
    ensures forall c :: c in WithoutCard(cards, id) <==> c in cards && c.id != id
  {
    if cards != [] {
      WithoutCardMembers(cards[1..], id);
      assert cards == [cards[0]] + cards[1..];
    }
  }

  /** The filter keeps order: filtering a concatenation filters each part. */
  lemma {:induction false} WithoutCardOrder(a: seq<KanbanCard>, b: seq<KanbanCard>, id: string)
    ensures WithoutCard(a + b, id) == WithoutCard(a, id) + WithoutCard(b, id)
  {
    if a == [] {
      assert a + b == b;
    } else {
      var t := a[1..];
      var head := if a[0].id == id then [] else [a[0]];
      assert a == [a[0]] + t;
      assert a + b == [a[0]] + (t + b);
      calc {
        WithoutCard(a + b, id);
        { WithoutCardCons(a[0], t + b, id); }
        head + WithoutCard(t + b, id);
        { WithoutCardOrder(t, b, id); }
        head + (WithoutCard(t, id) + WithoutCard(b, id));
        (head + WithoutCard(t, id)) + WithoutCard(b, id);
        { WithoutCardCons(a[0], t, id); }
        WithoutCard(a, id) + WithoutCard(b, id);
      }
    }
  }

  /** One step of the filter: the first card is kept exactly when its id differs. */
  lemma WithoutCardCons(c: KanbanCard, rest: seq<KanbanCard>, id: string)
    ensures WithoutCard([c] + rest, id) == (if c.id == id then [] else [c]) + WithoutCard(rest, id)
  {
    assert ([c] + rest)[1..] == rest;
  }

  /** A single card is kept exactly when its id differs. */
  lemma WithoutCardSingle(c: KanbanCard, id: string)
    ensures WithoutCard([c], id) == if c.id == id then [] else [c]
  {
    assert [c][1..] == [];
  }

  /** How many cards carry the id `id`. */
  function IdCount(cards: seq<KanbanCard>, id: string): nat
  {
    if cards == [] then 0 else (if cards[0].id == id then 1 else 0) + IdCount(cards[1..], id)
  }

  /** Every card of every column, column by column. */
  function AllCards(columns: seq<KanbanColumn>): seq<KanbanCard>
  {
    if columns == [] then [] else columns[0].cards + AllCards(columns[1..])
  }

  // ---------------------------------------------------------------------------
  // Moving a card
  // ---------------------------------------------------------------------------

  /**
   * `moveCard`: find both columns by id and the card in the source column by
   * id; if any is missing nothing changes. Otherwise every card with that id
   * is filtered out of the source column, and then the card found is inserted
   * into the destination column at the destination index (after the removal,
   * so a move inside one column works on the shortened list).
   */
  function MoveCard(columns: seq<KanbanColumn>, source: Location, destination: Location, draggableId: string)
    : (r: seq<KanbanColumn>)
    ensures |r| == |columns|
    ensures forall k :: 0 <= k < |r| ==> r[k].id == columns[k].id && r[k].title == columns[k].title
    ensures FindColumn(columns, source.droppableId).None? || FindColumn(columns, destination.droppableId).None?
            ==> r == columns
    ensures FindColumn(columns, source.droppableId).Some?
            && FindCard(columns[FindColumn(columns, source.droppableId).value].cards, draggableId).None?
            ==> r == columns
  {
    match (FindColumn(columns, source.droppableId), FindColumn(columns, destination.droppableId))
    case (Some(si), Some(di)) =>
      (match FindCard(columns[si].cards, draggableId)
       case None => columns
       case Some(card) =>
         var removed := columns[si := columns[si].(cards := WithoutCard(columns[si].cards, draggableId))];
         removed[di := removed[di].(cards := InsertAt(removed[di].cards, destination.index, card))])
    case _ => columns
  }

  /** The board a move produces once both columns and the card are found. */
  lemma MoveCardResult(columns: seq<KanbanColumn>, source: Location, destination: Location, draggableId: string,
                       si: nat, di: nat, card: KanbanCard)
    requires FindColumn(columns, source.droppableId) == Some(si)
    requires FindColumn(columns, destination.droppableId) == Some(di)
    requires FindCard(columns[si].cards, draggableId) == Some(card)
    ensures var removed := columns[si := columns[si].(cards := WithoutCard(columns[si].cards, draggableId))];
            MoveCard(columns, source, destination, draggableId)
              == removed[di := removed[di].(cards := InsertAt(removed[di].cards, destination.index, card))]
  {
  }

  /**
   * Where a found card goes: the destination column holds it at the
   * destination index (clamped) and keeps its other cards in order around it.
   */
  lemma MoveCardDestination(columns: seq<KanbanColumn>, source: Location, destination: Location, draggableId: string,
                            si: nat, di: nat, card: KanbanCard)
    requires FindColumn(columns, source.droppableId) == Some(si)
    requires FindColumn(columns, destination.droppableId) == Some(di)
    requires FindCard(columns[si].cards, draggableId) == Some(card)
    ensures var r := MoveCard(columns, source, destination, draggableId);
            var base := if si == di then WithoutCard(columns[si].cards, draggableId) else columns[di].cards;
            var at := InsertIndex(base, destination.index);
            && card.id == draggableId && card in columns[si].cards
            && r[di].cards == InsertAt(base, destination.index, card)
            && r[di].cards[at] == card
            && RemoveAt(r[di].cards, at) == base
  {
    var base := if si == di then WithoutCard(columns[si].cards, draggableId) else columns[di].cards;
    MoveCardResult(columns, source, destination, draggableId, si, di, card);
    var k :| 0 <= k < |columns[si].cards| && columns[si].cards[k] == card && card.id == draggableId
             && forall j :: 0 <= j < k ==> columns[si].cards[j].id != draggableId;
    RemoveInsertedAt(base, destination.index, card);
  }

  /**
   * What a move does elsewhere: a source column other than the destination
   * loses every card with the dragged id, and every other column is untouched.
   */
  lemma MoveCardElsewhere(columns: seq<KanbanColumn>, source: Location, destination: Location, draggableId: string,
                          si: nat, di: nat, card: KanbanCard)
    requires FindColumn(columns, source.droppableId) == Some(si)
    requires FindColumn(columns, destination.droppableId) == Some(di)
    requires FindCard(columns[si].cards, draggableId) == Some(card)
    ensures var r := MoveCard(columns, source, destination, draggableId);
            && (si != di ==> r[si].cards == WithoutCard(columns[si].cards, draggableId)
                             && forall c :: c in r[si].cards ==> c.id != draggableId)
            && (forall k :: 0 <= k < |columns| && k != si && k != di ==> r[k] == columns[k])
  {
    MoveCardResult(columns, source, destination, draggableId, si, di, card);
    WithoutCardMembers(columns[si].cards, draggableId);
  }

  lemma {:induction false} AllCardsUpdate(columns: seq<KanbanColumn>, i: nat, c: KanbanColumn)
    requires i < |columns|
    ensures multiset(AllCards(columns[i := c])) + multiset(columns[i].cards)
            == multiset(AllCards(columns)) + multiset(c.cards)
  {
    var updated := columns[i := c];
    if i == 0 {
      assert updated[1..] == columns[1..];
    } else {
      assert updated[1..] == columns[1..][i - 1 := c];
      AllCardsUpdate(columns[1..], i - 1, c);
      var head := multiset(columns[0].cards);
      assert columns[1..][i - 1] == columns[i];
      assert AllCards(updated) == columns[0].cards + AllCards(updated[1..]);
      assert AllCards(columns) == columns[0].cards + AllCards(columns[1..]);
      calc {
        multiset(AllCards(updated)) + multiset(columns[i].cards);
        head + (multiset(AllCards(updated[1..])) + multiset(columns[i].cards));
        head + (multiset(AllCards(columns[1..])) + multiset(c.cards));
        multiset(AllCards(columns)) + multiset(c.cards);
      }
    }
  }

  /** Filtering out the id of a card that is the only one with that id removes exactly that card. */
  lemma {:induction false} WithoutUniqueCard(cards: seq<KanbanCard>, id: string, card: KanbanCard)
    requires IdCount(cards, id) == 1 && card in cards && card.id == id
    ensures multiset(WithoutCard(cards, id)) + multiset{card} == multiset(cards)
  {
    assert cards == [cards[0]] + cards[1..];
    WithoutCardCons(cards[0], cards[1..], id);
    if cards[0].id == id {
      assert IdCount(cards[1..], id) == 0;
      if card in cards[1..] {
        IdCountPositive(cards[1..], id, card);
        assert false;
      }
      assert card == cards[0];
      NoIdNothingRemoved(cards[1..], id);
    } else {
      assert card in cards[1..];
      WithoutUniqueCard(cards[1..], id, card);
    }
  }

  lemma {:induction false} NoIdNothingRemoved(cards: seq<KanbanCard>, id: string)
    requires IdCount(cards, id) == 0
    ensures WithoutCard(cards, id) == cards
  {
    if cards != [] {
      NoIdNothingRemoved(cards[1..], id);
    }
  }

  lemma {:induction false} IdCountPositive(cards: seq<KanbanCard>, id: string, card: KanbanCard)
    requires card in cards && card.id == id
    ensures IdCount(cards, id) > 0
  {
    if cards[0] != card {
      assert card in cards[1..];
      IdCountPositive(cards[1..], id, card);
    }
  }

  /**
   * Card conservation: when the dragged card's id occurs once in its column,
   * a move keeps the multiset of all cards on the board.
   */
  lemma MoveCardConservesCards(columns: seq<KanbanColumn>, source: Location, destination: Location,
                               draggableId: string)
    requires var si := FindColumn(columns, source.droppableId);
             si.Some? ==> IdCount(columns[si.value].cards, draggableId) <= 1
    ensures multiset(AllCards(MoveCard(columns, source, destination, draggableId))) == multiset(AllCards(columns))
  {
    var fs, fd := FindColumn(columns, source.droppableId), FindColumn(columns, destination.droppableId);
    if fs.Some? && fd.Some? && FindCard(columns[fs.value].cards, draggableId).Some? {
      var si, di := fs.value, fd.value;
      var card := FindCard(columns[si].cards, draggableId).value;
      IdCountPositive(columns[si].cards, draggableId, card);
      var src := columns[si].cards;
      var removed := columns[si := columns[si].(cards := WithoutCard(src, draggableId))];
      var dst := removed[di].cards;
      var moved := removed[di := removed[di].(cards := InsertAt(dst, destination.index, card))];
      assert MoveCard(columns, source, destination, draggableId) == moved;
      var m0, m1, m2 := multiset(AllCards(columns)), multiset(AllCards(removed)), multiset(AllCards(moved));
      AllCardsUpdate(columns, si, removed[si]);
      WithoutUniqueCard(src, draggableId, card);
      TakeOutStep(m0, m1, multiset(src), multiset(WithoutCard(src, draggableId)), card);
      AllCardsUpdate(removed, di, moved[di]);
      PutInStep(m1, m2, multiset(dst), multiset(InsertAt(dst, destination.index, card)), card);
    }
  }

  // ---------------------------------------------------------------------------
  // Reordering columns
  // ---------------------------------------------------------------------------

  /**
   * `confirmColumnMove`'s reordering: the column at `from` is spliced out and
   * spliced back in at `to` (clamped to the shortened list).
   */
  function ReorderColumns(columns: seq<KanbanColumn>, from: nat, to: nat): (r: seq<KanbanColumn>)
    requires from < |columns|
    ensures |r| == |columns| && multiset(r) == multiset(columns)
    ensures r[InsertIndex(RemoveAt(columns, from), to)] == columns[from]
    ensures RemoveAt(r, InsertIndex(RemoveAt(columns, from), to)) == RemoveAt(columns, from)
  {
    var rest := RemoveAt(columns, from);
    RemoveInsertedAt(rest, to, columns[from]);
    InsertAt(rest, to, columns[from])
  }

  /** Dragging the moved column back from where it landed to where it was undoes the move. */
  lemma ReorderUndo(columns: seq<KanbanColumn>, from: nat, to: nat)
    requires from < |columns|
    ensures var landed := InsertIndex(RemoveAt(columns, from), to);
            landed < |columns| && ReorderColumns(ReorderColumns(columns, from, to), landed, from) == columns
  {
    var landed := InsertIndex(RemoveAt(columns, from), to);
    InsertRemovedAt(columns, from);
  }

  // ---------------------------------------------------------------------------
  // Adding cards and columns
  // ---------------------------------------------------------------------------

  /** The card `confirmAddCard` creates: a `card-` id and the trimmed content. */
  function NewCard(nanoid: string, content: string): (c: KanbanCard)
    ensures |c.id| == |nanoid| + 5 && c.id[..5] == "card-" && c.id[5..] == nanoid
    ensures c.content == Trim(content)
  {
    KanbanCard("card-" + nanoid, Trim(content))
  }

  /** `confirmAddCard`'s `columns.map`: every column with that id gets the card appended. */
  function AddCard(columns: seq<KanbanColumn>, columnId: string, card: KanbanCard): (r: seq<KanbanColumn>)
    ensures |r| == |columns|
    ensures forall k :: 0 <= k < |columns| ==>
              r[k] == if columns[k].id == columnId then columns[k].(cards := columns[k].cards + [card]) else columns[k]
  {
    if columns == [] then []
    else
      var c := columns[0];
      [if c.id == columnId then c.(cards := c.cards + [card]) else c] + AddCard(columns[1..], columnId, card)
  }

  /** On a board with distinct column ids, adding to a known column adds exactly that one card. */
  lemma AddCardAddsOne(columns: seq<KanbanColumn>, columnId: string, card: KanbanCard)
    requires forall i, j :: 0 <= i < j < |columns| ==> columns[i].id != columns[j].id
    requires FindColumn(columns, columnId).Some?
    ensures multiset(AllCards(AddCard(columns, columnId, card))) == multiset(AllCards(columns)) + multiset{card}
  {
    var i := FindColumn(columns, columnId).value;
    var c := columns[i].(cards := columns[i].cards + [card]);
    assert AddCard(columns, columnId, card) == columns[i := c];
    AllCardsUpdate(columns, i, c);
    PutInStep(multiset(AllCards(columns)), multiset(AllCards(columns[i := c])), multiset(columns[i].cards),
              multiset(c.cards), card);
  }

  /** The column `confirmAddColumn` creates: a `column-` id, the trimmed title and no cards. */
  function NewColumn(nanoid: string, title: string): (c: KanbanColumn)
    ensures |c.id| == |nanoid| + 7 && c.id[..7] == "column-" && c.id[7..] == nanoid
    ensures c.title == Trim(title) && c.cards == []
  {
    KanbanColumn("column-" + nanoid, Trim(title), [])
  }

  /** A non-blank text gives a card whose content is non-empty and already trimmed. */
  lemma NewCardContent(nanoid: string, content: string)
    requires !Blank(content)
    ensures var card := NewCard(nanoid, content);
            card.content != "" && Trim(card.content) == card.content
  {
    TrimEmptyIffAllWhitespace(content);
    TrimIdempotent(content);
  }

  /** A non-blank title gives an empty column whose title is non-empty and already trimmed. */
  lemma NewColumnTitle(nanoid: string, title: string)
    requires !Blank(title)
    ensures var column := NewColumn(nanoid, title);
            column.title != "" && Trim(column.title) == column.title && column.cards == []
  {
    TrimEmptyIffAllWhitespace(title);
    TrimIdempotent(title);
  }

  // ---------------------------------------------------------------------------
  // The component's state
  // ---------------------------------------------------------------------------

  class KanbanView {
    var columns: seq<KanbanColumn>
    var pendingMove: Option<PendingMove>
    var showMoveConfirmation: bool
    var addingCardToColumnId: Option<string>
    var newCardContent: string
    var isAddingColumn: bool
    var newColumnTitle: string

    /** A pending column move always names a column that exists. */
    ghost predicate Valid()
      reads this
    {
      pendingMove.Some? ==> pendingMove.value.source.index < |columns|
    }

    /** The board as loaded, with no form open and nothing pending. */
    constructor (loaded: seq<KanbanColumn>)
      ensures Valid()
      ensures columns == loaded && pendingMove.None? && !showMoveConfirmation
      ensures addingCardToColumnId.None? && newCardContent == "" && !isAddingColumn && newColumnTitle == ""
    {
      columns := loaded;
      pendingMove := None;
      showMoveConfirmation := false;
      addingCardToColumnId := None;
      newCardContent := "";
      isAddingColumn := false;
      newColumnTitle := "";
    }

    /**
     * `onDragEnd`: nothing for a drop outside or back in place; a column drop
     * is held for confirmation; a card drop moves the card at once. The
     * library reports the dragged column's own position as the source index.
     */
    method OnDragEnd(drop: DropResult)
      requires Valid()
      requires !NoMove(drop) && drop.dropType == ColumnType ==> drop.source.index < |columns|
      modifies this`columns, this`pendingMove, this`showMoveConfirmation
      ensures Valid()
      ensures NoMove(drop) ==> columns == old(columns) && pendingMove == old(pendingMove)
                               && showMoveConfirmation == old(showMoveConfirmation)
      ensures !NoMove(drop) && drop.dropType == ColumnType ==>
                && columns == old(columns) && showMoveConfirmation
                && pendingMove == Some(PendingMove(drop.source, drop.destination.value, drop.draggableId))
      ensures !NoMove(drop) && drop.dropType != ColumnType ==>
                && columns == MoveCard(old(columns), drop.source, drop.destination.value, drop.draggableId)
                && pendingMove == old(pendingMove) && showMoveConfirmation == old(showMoveConfirmation)
    {
      if NoMove(drop) {
        return;
      }
      if drop.dropType == ColumnType {
        pendingMove := Some(PendingMove(drop.source, drop.destination.value, drop.draggableId));
        showMoveConfirmation := true;
        return;
      }
      columns := MoveCard(columns, drop.source, drop.destination.value, drop.draggableId);
    }

    /** `confirmColumnMove`: applies the pending move, if any, and closes the dialog. */
    method ConfirmColumnMove()
      requires Valid()
      modifies this`columns, this`pendingMove, this`showMoveConfirmation
      ensures Valid()
      ensures old(pendingMove).None? ==> columns == old(columns) && pendingMove.None?
                                         && showMoveConfirmation == old(showMoveConfirmation)
      ensures old(pendingMove).Some? ==>
                && columns == ReorderColumns(old(columns), old(pendingMove).value.source.index,
                                             old(pendingMove).value.destination.index)
                && pendingMove.None? && !showMoveConfirmation
    {
      if pendingMove.None? {
        return;
      }
      var move := pendingMove.value;
      columns := ReorderColumns(columns, move.source.index, move.destination.index);
      pendingMove := None;
      showMoveConfirmation := false;
    }

    /** `cancelColumnMove`: drops the pending move and closes the dialog. */
    method CancelColumnMove()
      modifies this`pendingMove, this`showMoveConfirmation
      ensures Valid() && pendingMove.None? && !showMoveConfirmation
    {
      pendingMove := None;
      showMoveConfirmation := false;
    }

    /** `startAddingCard`: opens the card form of a column with an empty text. */
    method StartAddingCard(columnId: string)
      modifies this`addingCardToColumnId, this`newCardContent
      ensures addingCardToColumnId == Some(columnId) && newCardContent == ""
    {
      addingCardToColumnId := Some(columnId);
      newCardContent := "";
    }

    /** The card form's text input. */
    method SetNewCardContent(text: string)
      modifies this`newCardContent
      ensures newCardContent == text
    {
      newCardContent := text;
    }

    /** `cancelAddingCard`: closes the card form and clears its text. */
    method CancelAddingCard()
      modifies this`addingCardToColumnId, this`newCardContent
      ensures addingCardToColumnId.None? && newCardContent == ""
    {
      addingCardToColumnId := None;
      newCardContent := "";
    }

    /**
     * `confirmAddCard`: without an open column or with blank text only the
     * form closes; otherwise the trimmed text becomes a new card at the end
     * of the open column, and the form closes.
     */
    method ConfirmAddCard(nanoid: string)
      requires Valid()
      modifies this`columns, this`addingCardToColumnId, this`newCardContent
      ensures Valid()
      ensures !Truthy(old(addingCardToColumnId)) || Blank(old(newCardContent)) ==> columns == old(columns)
      ensures Truthy(old(addingCardToColumnId)) && !Blank(old(newCardContent)) ==>
                columns == AddCard(old(columns), old(addingCardToColumnId).value, NewCard(nanoid, old(newCardContent)))
      ensures addingCardToColumnId.None? && newCardContent == ""
    {
      if !Truthy(addingCardToColumnId) || Blank(newCardContent) {
        CancelAddingCard();
        return;
      }
      columns := AddCard(columns, addingCardToColumnId.value, NewCard(nanoid, newCardContent));
      CancelAddingCard();
    }

    /** `startAddingColumn`: opens the column form with an empty title. */
    method StartAddingColumn()
      modifies this`isAddingColumn, this`newColumnTitle
      ensures isAddingColumn && newColumnTitle == ""
    {
      isAddingColumn := true;
      newColumnTitle := "";
    }

    /** The column form's title input. */
    method SetNewColumnTitle(text: string)
      modifies this`newColumnTitle
      ensures newColumnTitle == text
    {
      newColumnTitle := text;
    }

    /** `cancelAddingColumn`: closes the column form and clears its title. */
    method CancelAddingColumn()
      modifies this`isAddingColumn, this`newColumnTitle
      ensures !isAddingColumn && newColumnTitle == ""
    {
      isAddingColumn := false;
      newColumnTitle := "";
    }

    /**
     * `confirmAddColumn`: with a blank title only the form closes; otherwise
     * a new empty column with the trimmed title is appended, and the form
     * closes.
     */
    method ConfirmAddColumn(nanoid: string)
      requires Valid()
      modifies this`columns, this`isAddingColumn, this`newColumnTitle
      ensures Valid()
      ensures Blank(old(newColumnTitle)) ==> columns == old(columns)
      ensures !Blank(old(newColumnTitle)) ==> columns == old(columns) + [NewColumn(nanoid, old(newColumnTitle))]
      ensures !isAddingColumn && newColumnTitle == ""
    {
      if Blank(newColumnTitle) {
        CancelAddingColumn();
        return;
      }
      columns := columns + [NewColumn(nanoid, newColumnTitle)];
      CancelAddingColumn();
    }
  }
}
