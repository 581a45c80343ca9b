/** The generic table component: configurable columns with click-to-sort
    headers, optional row numbers, a per-row actions column, loading and
    empty placeholders, the entry range line and the pager. */
module UiDataTable {
  import opened Common
  import opened Pagination

  /** `entriesPerPage` starts at 10 and this component never changes it. */
  const EntriesPerPage: int := 10

  datatype SortOrder = Asc | Desc

  function Flip(o: SortOrder): SortOrder
  {
    if o == Asc then Desc else Asc
  }

  /** `{ key, label, sortable? }`, with the label as `text`; an absent `sortable` is false. */
  datatype Column = Column(key: string, text: string, sortable: bool)

  /** A row of `data`: the display value of each of its keys. */
  type Item = map<string, string>

  /** `{ label, onClick, condition? }`, with the label as `text`. The click handler is identified by
      the action's index; `condition` is the optional per-row predicate. */
  datatype Action = Action(text: string, condition: Option<Item -> bool>)

  /** The props the table reads (the callbacks are the indices and requests
      in the view). `actions` defaults to [], `loading` to false and
      `showNumbers` to true. */
  datatype Props = Props(
    data: seq<Item>,
    columns: seq<Column>,
    actions: seq<Action>,
    currentPage: int,
    totalPages: int,
    totalItems: int,
    loading: bool,
    showNumbers: bool)

  /** The arguments `onSort(sortBy, sortOrder)` receives. */
  datatype SortRequest = SortRequest(sortBy: string, sortOrder: SortOrder)

  /** The order `handleSort` picks: descending only when the clicked column is
      already the ascending sort column, ascending otherwise. */
  function NextOrder(sortBy: string, sortOrder: SortOrder, column: string): (o: SortOrder)
    ensures column != sortBy ==> o == Asc
    ensures column == sortBy ==> o == Flip(sortOrder)
  {
    if sortBy == column && sortOrder == Asc then Desc else Asc
  }

  /** Starting from the initial state, the first click on any column sorts it
      ascending, and every further click on the same column flips the order. */
  lemma {:induction false} RepeatedClicksAlternate(column: string, clicks: nat)
    requires clicks >= 1
    ensures OrderAfterClicks(column, clicks) == if clicks % 2 == 1 then Asc else Desc
  {
    if clicks > 1 {
      RepeatedClicksAlternate(column, clicks - 1);
    } else {
      assert OrderAfterClicks(column, 1) == NextOrder("", Desc, column);
    }
  }

  /** The sort order after clicking `column` `clicks` times from the initial
      state `sortBy = ''`, `sortOrder = 'desc'`. */
  function OrderAfterClicks(column: string, clicks: nat): SortOrder
  {
    if clicks == 0 then Desc
    else NextOrder(if clicks == 1 then "" else column, OrderAfterClicks(column, clicks - 1), column)
  }

  /** The component's own sort state, `sortBy` and `sortOrder`. */
  class SortState {
    var sortBy: string
    var sortOrder: SortOrder

    constructor ()
      ensures sortBy == "" && sortOrder == Desc
    {
      sortBy := "";
      sortOrder := Desc;
    }

    /** `handleSort(column)`: sets both state fields and calls `onSort` with
        the column and the new order. */
    method HandleSort(column: string) returns (call: SortRequest)
      modifies this
      ensures sortBy == column
      ensures sortOrder == NextOrder(old(sortBy), old(sortOrder), column)
      ensures call == SortRequest(column, sortOrder)
    {
      var newOrder := if sortBy == column && sortOrder == Asc then Desc else Asc;
      sortBy := column;
      sortOrder := newOrder;
      call := SortRequest(column, newOrder);
    }

    /** A header click: only a sortable column has a click handler. */
    method ClickHeader(col: Column) returns (call: Option<SortRequest>)
      modifies this
      ensures !col.sortable ==> call == None && sortBy == old(sortBy) && sortOrder == old(sortOrder)
      ensures col.sortable ==>
        && sortBy == col.key
        && sortOrder == NextOrder(old(sortBy), old(sortOrder), col.key)
        && call == Some(SortRequest(col.key, sortOrder))
    {
      if col.sortable {
        var req := HandleSort(col.key);
        call := Some(req);
      } else {
        call := None;
      }
    }
  }

  /** The arrow after a header label. */
  datatype Indicator = NoArrow | UpArrow | DownArrow

  /** "No", one cell per column, "Aksi". */
  datatype HeaderCell =
    | NumberHeader
    | ColumnHeader(key: string, text: string, clickable: bool, indicator: Indicator)
    | ActionsHeader

  function ColumnHeaderCell(col: Column, sortBy: string, sortOrder: SortOrder): HeaderCell
  {
    ColumnHeader(col.key, col.text, col.sortable,
      if col.sortable && sortBy == col.key then (if sortOrder == Asc then UpArrow else DownArrow)
      else NoArrow)
  }

  function Header(p: Props, sortBy: string, sortOrder: SortOrder): seq<HeaderCell>
  {
    (if p.showNumbers then [NumberHeader] else [])
    + seq(|p.columns|, i requires 0 <= i < |p.columns| => ColumnHeaderCell(p.columns[i], sortBy, sortOrder))
    + (if |p.actions| > 0 then [ActionsHeader] else [])
  }

  /** The placeholder's `colSpan` expression. */
  function PlaceholderSpan(p: Props): int
  {
    (if p.showNumbers then 1 else 0) + |p.columns| + (if |p.actions| > 0 then 1 else 0)
  }

  /** Only one column, the active sort column when it is sortable, shows an
      arrow, and its arrow points up exactly when the order is ascending. */
  lemma HeaderIndicators(p: Props, sortBy: string, sortOrder: SortOrder, k: nat)
    requires k < |p.columns|
    ensures var h := Header(p, sortBy, sortOrder)[(if p.showNumbers then 1 else 0) + k];
      && h == ColumnHeader(p.columns[k].key, p.columns[k].text, p.columns[k].sortable, h.indicator)
      && (h.indicator != NoArrow <==> p.columns[k].sortable && p.columns[k].key == sortBy)
      && (h.indicator == UpArrow <==> p.columns[k].sortable && p.columns[k].key == sortBy && sortOrder == Asc)
  {
    var off := if p.showNumbers then 1 else 0;
    var cols := seq(|p.columns|, i requires 0 <= i < |p.columns| => ColumnHeaderCell(p.columns[i], sortBy, sortOrder));
    var pre := if p.showNumbers then [NumberHeader] else [];
    assert Header(p, sortBy, sortOrder)[off + k] == (pre + cols)[off + k] == cols[k];
  }

  /** `s.includes(sub)` as a scan. */
  function Includes(s: string, sub: string): bool
    decreases |s|
  {
    if |sub| > |s| then false
    else s[..|sub|] == sub || (s != [] && Includes(s[1..], sub))
  }

  /** `sub` stands in `s` at position `i`. */
  predicate OccursAt(s: string, sub: string, i: int)
  {
    0 <= i && i + |sub| <= |s| && s[i..i + |sub|] == sub
  }

  /** The scan finds `sub` exactly when it occurs somewhere in `s`. */
  lemma {:induction false} IncludesIffOccurs(s: string, sub: string)
    ensures Includes(s, sub) <==> exists i :: OccursAt(s, sub, i)
    decreases |s|
  {
    if |sub| > |s| {
      forall i ensures !OccursAt(s, sub, i) { }
    } else if s[..|sub|] == sub {
      assert OccursAt(s, sub, 0);
    } else {
      IncludesIffOccurs(s[1..], sub);
      if Includes(s[1..], sub) {
        var i :| OccursAt(s[1..], sub, i);
        assert s[i + 1..i + 1 + |sub|] == s[1..][i..i + |sub|];
        assert OccursAt(s, sub, i + 1);
      } else {
        forall i | OccursAt(s, sub, i) ensures false {
          assert i != 0;
          assert forall k :: i <= k < i + |sub| ==> s[1..][k - 1] == s[k];
          assert s[1..][i - 1..i - 1 + |sub|] == s[i..i + |sub|];
          assert OccursAt(s[1..], sub, i - 1);
        }
      }
    }
  }

  const DestructiveWord: string := "Hapus"

  /** One rendered action button: its label, which action's `onClick` it
      calls, and whether it has the red (destructive) style. */
  datatype Button = Button(text: string, actionIndex: nat, destructive: bool)

  /** `!action.condition || action.condition(item)`. */
  predicate Visible(a: Action, item: Item)
  {
    a.condition.None? || a.condition.value(item)
  }

  /** The buttons `actions.map` renders for `item`, from action `from` on. */
  function ButtonsFrom(actions: seq<Action>, item: Item, from: nat): seq<Button>
    requires from <= |actions|
    decreases |actions| - from
  {
    if from == |actions| then []
    else
      var a := actions[from];
      (if Visible(a, item) then [Button(a.text, from, Includes(a.text, DestructiveWord))] else [])
      + ButtonsFrom(actions, item, from + 1)
  }

  /** Button `b` belongs to a visible action at or after `from`, with that action's label. */
  predicate ButtonSound(actions: seq<Action>, item: Item, from: nat, b: Button)
  {
    && from <= b.actionIndex < |actions|
    && Visible(actions[b.actionIndex], item)
    && b.text == actions[b.actionIndex].text
    && b.destructive == Includes(b.text, DestructiveWord)
  }

  lemma {:induction false} ButtonsFromSound(actions: seq<Action>, item: Item, from: nat)
    requires from <= |actions|
    ensures forall b :: b in ButtonsFrom(actions, item, from) ==> ButtonSound(actions, item, from, b)
    decreases |actions| - from
  {
    if from < |actions| {
      ButtonsFromSound(actions, item, from + 1);
    }
  }

  predicate Increasing(s: seq<int>)
  {
    forall j, k :: 0 <= j < k < |s| ==> s[j] < s[k]
  }

  /** Indices of the buttons' actions, in order. */
  function ActionIndices(bs: seq<Button>): seq<int>
  {
    seq(|bs|, j requires 0 <= j < |bs| => bs[j].actionIndex)
  }

  lemma {:induction false} ButtonsFromOrdered(actions: seq<Action>, item: Item, from: nat)
    requires from <= |actions|
    ensures Increasing(ActionIndices(ButtonsFrom(actions, item, from)))
    decreases |actions| - from
  {
    if from < |actions| {
      ButtonsFromOrdered(actions, item, from + 1);
      ButtonsFromSound(actions, item, from + 1);
      var rest := ButtonsFrom(actions, item, from + 1);
      var bs := ButtonsFrom(actions, item, from);
      var first := actions[from];
      var head := if Visible(first, item) then [Button(first.text, from, Includes(first.text, DestructiveWord))] else [];
      assert bs == head + rest;
      var ix, rx := ActionIndices(bs), ActionIndices(rest);
      assert forall j :: |head| <= j < |bs| ==> ix[j] == rx[j - |head|];
      forall j | 0 <= j < |rest| ensures from < rx[j] {
        assert rest[j] in rest;
      }
      forall j, k | 0 <= j < k < |ix| ensures ix[j] < ix[k] {
        if j >= |head| {
          assert ix[j] == rx[j - |head|] && ix[k] == rx[k - |head|];
          assert Increasing(rx);
        } else {
          assert ix[j] == from && ix[k] == rx[k - |head|];
        }
      }
    }
  }

  lemma {:induction false} ButtonsFromComplete(actions: seq<Action>, item: Item, from: nat)
    requires from <= |actions|
    ensures forall a :: from <= a < |actions| && Visible(actions[a], item) ==>
      a in ActionIndices(ButtonsFrom(actions, item, from))
    decreases |actions| - from
  {
    if from < |actions| {
      ButtonsFromComplete(actions, item, from + 1);
      var rest := ButtonsFrom(actions, item, from + 1);
      var bs := ButtonsFrom(actions, item, from);
      var first := actions[from];
      var head := if Visible(first, item) then [Button(first.text, from, Includes(first.text, DestructiveWord))] else [];
      assert bs == head + rest;
      var ix, hx, rx := ActionIndices(bs), ActionIndices(head), ActionIndices(rest);
      assert ix == hx + rx;
      forall a | from <= a < |actions| && Visible(actions[a], item) ensures a in ix {
        if a == from {
          assert hx[0] == a;
        } else {
          assert a in rx;
        }
      }
    }
  }

  /** Exactly the actions whose condition is absent or holds for the item get
      a button, in the order of `actions`, each with its action's label and
      styled red exactly when that label contains "Hapus". */
  lemma ButtonsSpec(actions: seq<Action>, item: Item)
    ensures var bs := ButtonsFrom(actions, item, 0);
      && (forall b :: b in bs ==>
            && b.actionIndex < |actions|
            && Visible(actions[b.actionIndex], item)
            && b.text == actions[b.actionIndex].text
            && (b.destructive <==> exists i :: OccursAt(b.text, DestructiveWord, i)))
      && (forall j, k :: 0 <= j < k < |bs| ==> bs[j].actionIndex < bs[k].actionIndex)
      && (forall a :: 0 <= a < |actions| && Visible(actions[a], item) ==>
            exists j :: 0 <= j < |bs| && bs[j].actionIndex == a)
  {
    ButtonsFromSound(actions, item, 0);
    ButtonsFromOrdered(actions, item, 0);
    ButtonsFromComplete(actions, item, 0);
    var bs := ButtonsFrom(actions, item, 0);
    var ix := ActionIndices(bs);
    forall b | b in bs
      ensures b.destructive <==> exists i :: OccursAt(b.text, DestructiveWord, i)
    {
      IncludesIffOccurs(b.text, DestructiveWord);
    }
    forall j, k | 0 <= j < k < |bs| ensures bs[j].actionIndex < bs[k].actionIndex {
      assert ix[j] == bs[j].actionIndex && ix[k] == bs[k].actionIndex;
      assert Increasing(ix);
    }
    forall a | 0 <= a < |actions| && Visible(actions[a], item)
      ensures exists j :: 0 <= j < |bs| && bs[j].actionIndex == a
    {
      var j :| 0 <= j < |ix| && ix[j] == a;
      assert bs[j].actionIndex == a;
    }
  }

  /** The number shown in the "No" cell of row `index`. */
  function RowNumber(currentPage: int, index: int): int
  {
    (currentPage - 1) * EntriesPerPage + index + 1
  }

  /** One data row: its item, its number (when numbers are shown), one cell
      per column (an absent key shows nothing), and the actions cell when the
      table has actions. */
  datatype RowView = RowView(item: Item, number: Option<int>, cells: seq<string>, buttons: Option<seq<Button>>)

  function CellValue(item: Item, key: string): string
  {
    if key in item then item[key] else ""
  }

  function RowOf(p: Props, index: int, item: Item): RowView
  {
    RowView(
      item,
      if p.showNumbers then Some(RowNumber(p.currentPage, index)) else None,
      seq(|p.columns|, i requires 0 <= i < |p.columns| => CellValue(item, p.columns[i].key)),
      if |p.actions| > 0 then Some(ButtonsFrom(p.actions, item, 0)) else None)
  }

  /** The number of cells a row occupies. */
  function RowWidth(r: RowView): nat
  {
    (if r.number.Some? then 1 else 0) + |r.cells| + (if r.buttons.Some? then 1 else 0)
  }

  datatype Body = LoadingRow(colSpan: int) | NoDataRow(colSpan: int) | DataRows(rows: seq<RowView>)

  /** What the table renders: the entry range line ("Menampilkan {range.first}
      sampai {range.last} dari {shownCount} entri"), the header, the body and
      the pager footer. */
  datatype TableView = TableView(
    range: EntryRange,
    shownCount: int,
    header: seq<HeaderCell>,
    body: Body,
    pager: Option<PagerView>)

  /** The whole render: a loading placeholder whenever `loading`, whatever the
      data; otherwise exactly one "no data" row for empty data; otherwise one
      row per item, in order, numbered consecutively from the first entry of
      the page, each as wide as the header, as is the placeholder. */
  function Render(p: Props, sortBy: string, sortOrder: SortOrder): (v: TableView)
    ensures v.body.LoadingRow? <==> p.loading
    ensures v.body.NoDataRow? <==> !p.loading && p.data == []
    ensures !v.body.DataRows? ==> v.body.colSpan == |v.header|
    ensures v.body.DataRows? ==>
      && |v.body.rows| == |p.data|
      && forall i :: 0 <= i < |p.data| ==>
           && v.body.rows[i].item == p.data[i]
           && RowWidth(v.body.rows[i]) == |v.header|
           && (p.showNumbers ==> v.body.rows[i].number == Some(v.range.first + i))
           && v.body.rows[i].cells
              == seq(|p.columns|, k requires 0 <= k < |p.columns| => CellValue(p.data[i], p.columns[k].key))
           && v.body.rows[i].buttons
              == (if |p.actions| > 0 then Some(ButtonsFrom(p.actions, p.data[i], 0)) else None)
    ensures v.shownCount == |p.data|
    ensures v.range == Entries(p.currentPage, EntriesPerPage, p.totalItems)
    ensures v.pager == Pager(p.currentPage, p.totalPages)
  {
    var header := Header(p, sortBy, sortOrder);
    var body :=
      if p.loading then LoadingRow(PlaceholderSpan(p))
      else if |p.data| == 0 then NoDataRow(PlaceholderSpan(p))
      else DataRows(seq(|p.data|, i requires 0 <= i < |p.data| => RowOf(p, i, p.data[i])));
    TableView(Entries(p.currentPage, EntriesPerPage, p.totalItems), |p.data|, header, body,
              Pager(p.currentPage, p.totalPages))
  }

  /** With numbers shown, consecutive rows carry consecutive numbers, and the
      last row's number is the entry range's last entry whenever the page
      holds as many rows as `totalItems` leaves for it. */
  lemma RowNumbersMatchRange(p: Props, sortBy: string, sortOrder: SortOrder)
    requires p.showNumbers && !p.loading && p.data != [] && 1 <= p.currentPage
    requires |p.data| == Entries(p.currentPage, EntriesPerPage, p.totalItems).last
                       - Entries(p.currentPage, EntriesPerPage, p.totalItems).first + 1
    ensures var v := Render(p, sortBy, sortOrder);
      && (forall i :: 0 <= i < |p.data| - 1 ==>
            v.body.rows[i + 1].number.value == v.body.rows[i].number.value + 1)
      && v.body.rows[|p.data| - 1].number == Some(v.range.last)
  {
  }

  /** Clicking button `b` of a row calls `onClick` of the action it names,
      with the row's item. */
  datatype ActionCall = ActionCall(actionIndex: nat, item: Item)

  function ClickButton(r: RowView, b: Button): ActionCall
  {
    ActionCall(b.actionIndex, r.item)
  }

  /** A click on any button of row `i` calls `onClick` of an action that is
      visible for that row's item, with that item, and the button shows that
      action's label. */
  lemma ClickCallsVisibleAction(p: Props, sortBy: string, sortOrder: SortOrder, i: nat, b: Button)
    requires !p.loading && i < |p.data| && |p.actions| > 0
    requires b in Render(p, sortBy, sortOrder).body.rows[i].buttons.value
    ensures var c := ClickButton(Render(p, sortBy, sortOrder).body.rows[i], b);
      && c.item == p.data[i]
      && c.actionIndex < |p.actions|
      && Visible(p.actions[c.actionIndex], p.data[i])
      && b.text == p.actions[c.actionIndex].text
  {
    ButtonsFromSound(p.actions, p.data[i], 0);
  }
}
