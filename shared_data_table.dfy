/** The products table: five fixed columns (name, SKU, quantity, price,
    actions), an edit and a delete button per row, a selectable number of
    entries per page for the entry range line, loading and empty
    placeholders, and the pager. */
module SharedDataTable {
  import opened Common
  import opened ProductModel
  import opened Pagination

  /** The options of the "Tampilkan" select. */
  datatype EntriesOption = Ten | TwentyFive | Fifty | Hundred

  function OptionValue(o: EntriesOption): (n: int)
    ensures n in EntryChoices
  {
    match o
    case Ten => 10
    case TwentyFive => 25
    case Fifty => 50
    case Hundred => 100
  }

  const EntryChoices: set<int> := {10, 25, 50, 100}

  /** Every value the select can hold is the value of one of its options. */
  lemma EveryChoiceOffered(n: int)
    requires n in EntryChoices
    ensures exists o :: OptionValue(o) == n
  {
    if n == 10 { assert OptionValue(Ten) == n; }
    else if n == 25 { assert OptionValue(TwentyFive) == n; }
    else if n == 50 { assert OptionValue(Fifty) == n; }
    else { assert OptionValue(Hundred) == n; }
  }

  /** The component's `entriesPerPage` state. */
  class EntriesSelector {
    var entriesPerPage: int

    ghost predicate Valid()
      reads this
    {
      entriesPerPage in EntryChoices
    }

    constructor ()
      ensures Valid() && entriesPerPage == 10
    {
      entriesPerPage := 10;
    }

    /** The select's `onChange`: `Number` of the chosen option's value. */
    method Select(o: EntriesOption)
      requires Valid()
      modifies this
      ensures Valid() && entriesPerPage == OptionValue(o)
    {
      entriesPerPage := OptionValue(o);
    }
  }

  /** The header labels; the placeholder spans this many columns. */
  const HeaderLabels: seq<string> := ["Nama", "SKU", "Jumlah", "Harga", "Aksi"]
  const PlaceholderSpan: int := 5

  /** What a row's buttons pass to the page: `onEdit(product)` and `onDelete(product.id)`. */
  datatype Dispatch = Edit(product: Product) | Delete(id: int)

  /** One row's cells in display order, then its two buttons. */
  datatype ProductRow = ProductRow(
    name: string,
    sku: string,
    quantity: int,
    price: real,
    editButton: Dispatch,
    deleteButton: Dispatch)

  function RowFor(p: Product): ProductRow
  {
    ProductRow(p.name, p.sku, p.quantity, p.price, Edit(p), Delete(p.id))
  }

  datatype Body = LoadingRow(colSpan: int) | NoProductsRow(colSpan: int) | ProductRows(rows: seq<ProductRow>)

  /** "Menampilkan {range.first} sampai {range.last} dari {shownCount} entri",
      the header, the body and the pager footer. */
  datatype TableView = TableView(
    range: EntryRange,
    shownCount: int,
    header: seq<string>,
    body: Body,
    pager: Option<PagerView>)

  function Render(data: seq<Product>, currentPage: int, totalPages: int, loading: bool, entriesPerPage: int): (v: TableView)
    ensures v.body.LoadingRow? <==> loading
    ensures v.body.NoProductsRow? <==> !loading && data == []
    ensures !v.body.ProductRows? ==> v.body.colSpan == |v.header|
    ensures v.body.ProductRows? ==>
      && |v.body.rows| == |data|
      && forall i :: 0 <= i < |data| ==>
           && v.body.rows[i].editButton == Edit(data[i])
           && v.body.rows[i].deleteButton == Delete(data[i].id)
    ensures v.range == Entries(currentPage, entriesPerPage, |data|) && v.range.last <= |data|
    ensures v.shownCount == |data|
    ensures v.pager == Pager(currentPage, totalPages)
  {
    var body :=
      if loading then LoadingRow(PlaceholderSpan)
      else if |data| == 0 then NoProductsRow(PlaceholderSpan)
      else ProductRows(seq(|data|, i requires 0 <= i < |data| => RowFor(data[i])));
    TableView(Entries(currentPage, entriesPerPage, |data|), |data|, HeaderLabels, body,
              Pager(currentPage, totalPages))
  }

  /** Each row shows its own product's name, SKU, quantity and price, the
      cells under "Nama", "SKU", "Jumlah" and "Harga". */
  lemma RowsFollowHeader(data: seq<Product>, currentPage: int, totalPages: int, entriesPerPage: int, i: nat)
    requires data != [] && i < |data|
    ensures var r := Render(data, currentPage, totalPages, false, entriesPerPage).body.rows[i];
      && r.name == data[i].name
      && r.sku == data[i].sku
      && r.quantity == data[i].quantity
      && r.price == data[i].price
  {
  }

  /** With every value the select offers, the entry range stays within the
      data and within one page. */
  lemma EntryRangeForChoices(data: seq<Product>, currentPage: int, o: EntriesOption)
    requires 1 <= currentPage
    ensures var r := Entries(currentPage, OptionValue(o), |data|);
      r.last <= |data| && r.last - r.first + 1 <= OptionValue(o) && 1 <= r.first
  {
    EntriesBounds(currentPage, OptionValue(o), |data|);
  }

  /** The range is computed from the rows of the current page only, while
      `currentPage` counts server pages: on a later page holding at most one
      page of rows the first entry lies past the last ("11 sampai 10"). */
  lemma LaterPageRangeInverted(data: seq<Product>, currentPage: int, entriesPerPage: int)
    requires 2 <= currentPage && 1 <= entriesPerPage && |data| <= entriesPerPage
    ensures var r := Entries(currentPage, entriesPerPage, |data|);
      r.last <= |data| < r.first
  {
    assert (currentPage - 1) * entriesPerPage >= entriesPerPage;
  }
}
