/** The dashboard: a token guard, one fetch of the first page of products,
    and the summary cards and recent-products table computed from it. */
module Dashboard {
  import opened Common
  import opened ProductModel

  const LoadErrorText: string := "Gagal memuat produk"
  const LoadFailedToast: Toast := Toast("Gagal memuat data produk", Error)
  const RecentCount: int := 5

  /** `products.reduce((sum, product) => sum + product.quantity, 0)`: a left
      fold from the initial `acc`. */
  function ReduceStock(ps: seq<Product>, acc: int): int
  {
    if ps == [] then acc else ReduceStock(ps[1..], acc + ps[0].quantity)
  }

  /** Reference definition of the stock total, summing from the last product. */
  function SumQuantities(ps: seq<Product>): int
  {
    if ps == [] then 0 else SumQuantities(ps[..|ps| - 1]) + ps[|ps| - 1].quantity
  }

  lemma {:induction false} SumQuantitiesPrepend(p: Product, ps: seq<Product>)
    ensures SumQuantities([p] + ps) == p.quantity + SumQuantities(ps)
    decreases |ps|
  {
    if ps != [] {
      var qs := [p] + ps;
      assert qs[..|qs| - 1] == [p] + ps[..|ps| - 1];
      SumQuantitiesPrepend(p, ps[..|ps| - 1]);
    } else {
      assert ([p] + ps)[..0] == [];
    }
  }

  /** The fold computes `acc` plus the sum of all quantities. */
  lemma {:induction false} ReduceStockIsSum(ps: seq<Product>, acc: int)
    ensures ReduceStock(ps, acc) == acc + SumQuantities(ps)
    decreases |ps|
  {
    if ps != [] {
      ReduceStockIsSum(ps[1..], acc + ps[0].quantity);
      assert ps == [ps[0]] + ps[1..];
      SumQuantitiesPrepend(ps[0], ps[1..]);
    }
  }

  /** "Total Stok". */
  function TotalStock(ps: seq<Product>): int
  {
    ReduceStock(ps, 0)
  }

  /** The stock total is additive over concatenation, is the quantity of a
      single product, and is not negative when no quantity is. */
  lemma {:induction false} TotalStockAppend(xs: seq<Product>, ys: seq<Product>)
    ensures TotalStock(xs + ys) == TotalStock(xs) + TotalStock(ys)
    decreases |ys|
  {
    ReduceStockIsSum(xs + ys, 0);
    ReduceStockIsSum(xs, 0);
    ReduceStockIsSum(ys, 0);
    if ys != [] {
      var zs := xs + ys;
      assert zs[..|zs| - 1] == xs + ys[..|ys| - 1];
      TotalStockAppend(xs, ys[..|ys| - 1]);
      ReduceStockIsSum(ys[..|ys| - 1], 0);
      ReduceStockIsSum(xs + ys[..|ys| - 1], 0);
    } else {
      assert xs + ys == xs;
    }
  }

  lemma {:induction false} TotalStockNonNegative(ps: seq<Product>)
    requires forall i :: 0 <= i < |ps| ==> ps[i].quantity >= 0
    ensures TotalStock(ps) >= 0
    decreases |ps|
  {
    ReduceStockIsSum(ps, 0);
    if ps != [] {
      TotalStockNonNegative(ps[..|ps| - 1]);
      ReduceStockIsSum(ps[..|ps| - 1], 0);
    }
  }

  lemma TotalStockSingle(p: Product)
    ensures TotalStock([p]) == p.quantity
  {
    ReduceStockIsSum([p], 0);
  }

  /** `products.slice(0, 5)`: the first `min(5, |ps|)` products, in order. */
  function Recent(ps: seq<Product>): (r: seq<Product>)
    ensures |r| == if |ps| < RecentCount then |ps| else RecentCount
    ensures forall i :: 0 <= i < |r| ==> r[i] == ps[i]
  {
    if |ps| < RecentCount then ps else ps[..RecentCount]
  }

  /** What the dashboard shows: the "Total Produk" and "Total Stok" cards,
      the error line, and either "Memuat..." or the recent table with the
      empty message below it when there are no products. */
  datatype DashboardView = DashboardView(
    totalProducts: int,
    totalStock: int,
    errorLine: Option<string>,
    loadingShown: bool,
    recent: seq<Product>,
    emptyMessageShown: bool)

  function View(products: seq<Product>, loading: bool, error: Option<string>): (v: DashboardView)
    ensures v.totalProducts == |products|
    ensures v.totalStock == SumQuantities(products)
    ensures v.loadingShown == loading
    ensures v.errorLine == error
    ensures !loading ==>
      && |v.recent| == (if |products| < RecentCount then |products| else RecentCount)
      && v.recent == products[..|v.recent|]
    ensures v.emptyMessageShown <==> !loading && |products| == 0
  {
    ReduceStockIsSum(products, 0);
    DashboardView(|products|, TotalStock(products), error, loading,
                  if loading then [] else Recent(products),
                  !loading && |products| == 0)
  }

  class DashboardPage {
    var products: seq<Product>
    var loading: bool
    var error: Option<string>
    var toast: Option<Toast>
    var navigatedTo: Option<Route>
    /** The `getProducts(page, search)` calls made so far, in order. */
    var fetches: seq<ProductQuery>

    constructor ()
      ensures products == [] && loading && error == None && toast == None
      ensures navigatedTo == None && fetches == []
    {
      products := [];
      loading := true;
      error := None;
      toast := None;
      navigatedTo := None;
      fetches := [];
    }

    /** The mount effect, with `token` the stored `token` entry: without a
        token the page goes to the login page and fetches nothing; with one
        it asks for page 1 with an empty search. */
    method RunEffect(token: Option<string>) returns (fetched: bool)
      modifies this`navigatedTo, this`fetches
      ensures fetched <==> Truthy(token)
      ensures !fetched ==> navigatedTo == Some(LoginRoute) && fetches == old(fetches)
      ensures fetched ==> navigatedTo == old(navigatedTo) && fetches == old(fetches) + [ProductQuery(1, "")]
    {
      if !Truthy(token) {
        navigatedTo := Some(LoginRoute);
        return false;
      }
      fetches := fetches + [ProductQuery(1, "")];
      fetched := true;
    }

    /** How the awaited `getProducts` settles: its rows are taken on success;
        on failure the error line and the error toast are set and the rows
        kept; `loading` ends false either way. */
    method FetchSettled(response: Outcome<ProductPage>)
      modifies this`products, this`error, this`toast, this`loading
      ensures !loading
      ensures response.Ok? ==>
        products == response.value.data && error == old(error) && toast == old(toast)
      ensures response.Failed? ==>
        products == old(products) && error == Some(LoadErrorText) && toast == Some(LoadFailedToast)
    {
      if response.Ok? {
        products := response.value.data;
      } else {
        error := Some(LoadErrorText);
        toast := Some(LoadFailedToast);
      }
      loading := false;
    }

    /** The toast's `onClose`: the toast is removed. */
    method CloseToast()
      modifies this`toast
      ensures toast == None
    {
      toast := None;
    }

    /** The dashboard as rendered from the page state: the cards count and
        sum the fetched products, the error line is the stored error. */
    function Render(): (v: DashboardView)
      reads this
      ensures v.totalProducts == |products| && v.totalStock == SumQuantities(products)
      ensures v.errorLine == error && v.loadingShown == loading
      ensures v.emptyMessageShown <==> !loading && products == []
    {
      View(products, loading, error)
    }
  }
}
