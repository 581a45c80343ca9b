/** The products list page: search and page state that drive the fetch of
    one page of products, the delete confirmation modal, toasts for the
    outcome of each remote call, and the success toast after a create or an
    update. Each handler is one atomic transition; a remote call's outcome
    is a parameter. */
module ProductsPage {
  import opened Common
  import opened ProductModel
  import SharedDataTable
  import Pagination

  /** `{ isOpen, productId }`; a `null` id is `None`. */
  datatype DeleteModal = DeleteModal(isOpen: bool, productId: Option<int>)

  const ClosedModal: DeleteModal := DeleteModal(false, None)

  const CreatedToast: Toast := Toast("Produk berhasil ditambahkan", Success)
  const UpdatedToast: Toast := Toast("Produk berhasil diperbarui", Success)
  const LoadFailedToast: Toast := Toast("Gagal memuat produk", Error)
  const DeletedToast: Toast := Toast("Produk berhasil dihapus", Success)
  const DeleteFailedToast: Toast := Toast("Gagal menghapus produk", Error)

  /** The toast for the `success` search parameter: one for "created", one
      for "updated", none for any other value or none at all. */
  function SuccessToast(success: Option<string>): (t: Option<Toast>)
    ensures t.Some? <==> success == Some("created") || success == Some("updated")
    ensures t.Some? ==> t.value.kind == Success
    ensures success == Some("created") ==> t == Some(CreatedToast)
    ensures success == Some("updated") ==> t == Some(UpdatedToast)
  {
    if success == Some("created") then Some(CreatedToast)
    else if success == Some("updated") then Some(UpdatedToast)
    else None
  }

  /** `!productId`: null and 0 are falsy. */
  predicate HasTarget(productId: Option<int>)
  {
    productId.Some? && productId.value != 0
  }

  class ProductsPage {
    var products: seq<Product>
    var loading: bool
    var currentPage: int
    var totalPages: int
    var searchQuery: string
    var toast: Option<Toast>
    var deleteModal: DeleteModal
    var navigatedTo: Option<Route>
    /** The `getProducts(page, search)` calls made so far, in order. */
    var fetches: seq<ProductQuery>
    /** The `deleteProduct(id)` calls made so far, in order. */
    var deletes: seq<int>

    /** The modal is open exactly while it holds an id. */
    ghost predicate Valid()
      reads this
    {
      deleteModal.isOpen <==> deleteModal.productId.Some?
    }

    constructor ()
      ensures Valid()
      ensures products == [] && loading && currentPage == 1 && totalPages == 1
      ensures searchQuery == "" && toast == None && deleteModal == ClosedModal
      ensures navigatedTo == None && fetches == [] && deletes == []
    {
      products := [];
      loading := true;
      currentPage := 1;
      totalPages := 1;
      searchQuery := "";
      toast := None;
      deleteModal := ClosedModal;
      navigatedTo := None;
      fetches := [];
      deletes := [];
    }

    /** The synchronous start of `fetchProducts`: `loading` set and
        `getProducts(currentPage, searchQuery)` called. */
    method StartFetch()
      modifies this`loading, this`fetches
      ensures loading
      ensures fetches == old(fetches) + [ProductQuery(currentPage, searchQuery)]
    {
      loading := true;
      fetches := fetches + [ProductQuery(currentPage, searchQuery)];
    }

    /** How the awaited `getProducts` settles: the page's rows and last page
        are taken on success; on failure an error toast is shown and the rows
        are kept; `loading` ends false either way. */
    method FetchSettled(response: Outcome<ProductPage>)
      requires Valid()
      modifies this`products, this`totalPages, this`toast, this`loading
      ensures Valid() && !loading
      ensures response.Ok? ==>
        products == response.value.data && totalPages == response.value.lastPage && toast == old(toast)
      ensures response.Failed? ==>
        products == old(products) && totalPages == old(totalPages) && toast == Some(LoadFailedToast)
    {
      if response.Ok? {
        products := response.value.data;
        totalPages := response.value.lastPage;
      } else {
        toast := Some(LoadFailedToast);
      }
      loading := false;
    }

    /** The effect that runs on mount and whenever the page, the query or the
        search parameters change: the success toast, if any, is shown and the
        parameters cleared (`clearParams`), then a fetch starts. */
    method RunEffect(success: Option<string>) returns (clearParams: bool)
      requires Valid()
      modifies this`toast, this`loading, this`fetches
      ensures Valid() && loading
      ensures clearParams <==> SuccessToast(success).Some?
      ensures toast == if clearParams then SuccessToast(success) else old(toast)
      ensures fetches == old(fetches) + [ProductQuery(currentPage, searchQuery)]
    {
      clearParams := false;
      if success == Some("created") {
        toast := Some(CreatedToast);
        clearParams := true;
      } else if success == Some("updated") {
        toast := Some(UpdatedToast);
        clearParams := true;
      }
      StartFetch();
    }

    /** `handleSearch`: the query is replaced and the first page selected. */
    method HandleSearch(query: string)
      requires Valid()
      modifies this`searchQuery, this`currentPage
      ensures Valid() && searchQuery == query && currentPage == 1
    {
      searchQuery := query;
      currentPage := 1;
    }

    /** `handlePageChange`: only the current page changes. */
    method HandlePageChange(page: int)
      requires Valid()
      modifies this`currentPage
      ensures Valid() && currentPage == page
    {
      currentPage := page;
    }

    /** `handleEdit`: navigation to the product's edit page. */
    method HandleEdit(product: Product)
      modifies this`navigatedTo
      ensures navigatedTo == Some(ProductEditRoute(product.id))
    {
      navigatedTo := Some(ProductEditRoute(product.id));
    }

    /** `handleDeleteClick`: the modal opens for the product. */
    method HandleDeleteClick(id: int)
      requires Valid()
      modifies this`deleteModal
      ensures Valid() && deleteModal == DeleteModal(true, Some(id))
    {
      deleteModal := DeleteModal(true, Some(id));
    }

    /** The modal's cancel button and its close handler. */
    method CloseModal()
      requires Valid()
      modifies this`deleteModal
      ensures Valid() && deleteModal == ClosedModal
    {
      deleteModal := ClosedModal;
    }

    /** The toast's close handler and its timer. */
    method CloseToast()
      modifies this`toast
      ensures toast == None
    {
      toast := None;
    }

    /** `handleConfirmDelete`, with `token` the stored `token` entry and
        `response` the way `deleteProduct` would settle. Without a (non-zero)
        id or without a token nothing changes and the modal stays as it was.
        Otherwise `deleteProduct(id)` is called; on success the success toast
        is shown and a refetch starts, on failure the error toast is shown;
        the modal ends closed either way. */
    method HandleConfirmDelete(token: Option<string>, response: Outcome<()>) returns (called: bool)
      requires Valid()
      modifies this`deleteModal, this`toast, this`deletes, this`loading, this`fetches
      ensures Valid()
      ensures called <==> HasTarget(old(deleteModal).productId) && Truthy(token)
      ensures !called ==>
        && deleteModal == old(deleteModal) && toast == old(toast)
        && deletes == old(deletes) && fetches == old(fetches) && loading == old(loading)
      ensures called ==>
        && deletes == old(deletes) + [old(deleteModal).productId.value]
        && deleteModal == ClosedModal
        && (response.Ok? ==>
              && toast == Some(DeletedToast) && loading
              && fetches == old(fetches) + [ProductQuery(currentPage, searchQuery)])
        && (response.Failed? ==>
              && toast == Some(DeleteFailedToast)
              && fetches == old(fetches) && loading == old(loading))
      ensures products == old(products) && currentPage == old(currentPage)
      ensures searchQuery == old(searchQuery) && totalPages == old(totalPages)
      ensures navigatedTo == old(navigatedTo)
    {
      var productId := deleteModal.productId;
      if !HasTarget(productId) {
        return false;
      }
      if !Truthy(token) {
        return false;
      }
      called := true;
      deletes := deletes + [productId.value];
      if response.Ok? {
        toast := Some(DeletedToast);
        StartFetch();
      } else {
        toast := Some(DeleteFailedToast);
      }
      deleteModal := ClosedModal;
    }

    /** The products table as this page renders it: the loading placeholder
        while a fetch is pending, one row per fetched product whose buttons
        dispatch to that product, the stored page in the footer. */
    function Table(entriesPerPage: int): (t: SharedDataTable.TableView)
      reads this
      ensures t.body.LoadingRow? <==> loading
      ensures t.body.ProductRows? ==>
        && |t.body.rows| == |products|
        && forall i :: 0 <= i < |products| ==>
             t.body.rows[i].editButton == SharedDataTable.Edit(products[i])
             && t.body.rows[i].deleteButton == SharedDataTable.Delete(products[i].id)
      ensures t.pager == Pagination.Pager(currentPage, totalPages)
    {
      SharedDataTable.Render(products, currentPage, totalPages, loading, entriesPerPage)
    }
  }

  /** A delete confirmed after a click on a product's delete button, with a
      token present, calls `deleteProduct` with that product's id and closes
      the modal, whatever the outcome. */
  method DeleteFlow(page: ProductsPage, id: int, token: string, response: Outcome<()>)
    requires page.Valid() && id != 0 && token != ""
    modifies page
    ensures page.Valid() && page.deleteModal == ClosedModal
    ensures page.deletes == old(page.deletes) + [id]
  {
    page.HandleDeleteClick(id);
    var called := page.HandleConfirmDelete(Some(token), response);
    assert called;
  }
}
