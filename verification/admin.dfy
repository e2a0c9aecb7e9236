/**
 * The admin views (AdminViews.tsx): the dashboard figures, the ten-per-page
 * order table, the product editor's submit dispatch and the role selector.
 * The mutation callbacks behind them are empty in the application, so they
 * are modelled as the requests the views emit.
 */
module Admin {
  import opened Wrappers
  import opened Types
  import opened Seqs
  import ProductForm

  /** Sum of the order totals, in the list's order. */
  function SumTotals(orders: seq<Order>): int
  {
    if |orders| == 0 then 0 else SumTotals(orders[..|orders| - 1]) + orders[|orders| - 1].totalCents
  }

  lemma {:induction false} SumTotalsAppend(a: seq<Order>, b: seq<Order>)
    ensures SumTotals(a + b) == SumTotals(a) + SumTotals(b)
    decreases |b|
  {
    if |b| == 0 {
      assert a + b == a;
    } else {
      assert (a + b)[..|a + b| - 1] == a + b[..|b| - 1];
      SumTotalsAppend(a, b[..|b| - 1]);
    }
  }

  function WasDelivered(): Order -> bool
  {
    (o: Order) => o.status == Delivered
  }

  function InProcessing(): Order -> bool
  {
    (o: Order) => o.status == Processing
  }

  function LowOnStock(): Product -> bool
  {
    (p: Product) => p.stock < 10
  }

  /** "Total Revenue": the totals of the delivered orders, and of no others. */
  function TotalRevenue(orders: seq<Order>): (cents: int)
    ensures (forall o :: o in orders ==> o.status != Delivered) ==> cents == 0
    ensures (forall o :: o in orders ==> o.totalCents >= 0) ==> cents >= 0
  {
    var delivered := Filter(WasDelivered(), orders);
    assert |delivered| > 0 ==> delivered[0] in delivered;
    SumTotalsNonNegative(delivered);
    SumTotals(delivered)
  }

  lemma {:induction false} SumTotalsNonNegative(orders: seq<Order>)
    ensures (forall o :: o in orders ==> o.totalCents >= 0) ==> SumTotals(orders) >= 0
    decreases |orders|
  {
    if |orders| > 0 && forall o :: o in orders ==> o.totalCents >= 0 {
      assert orders[|orders| - 1] in orders;
      SumTotalsNonNegative(orders[..|orders| - 1]);
    }
  }

  /** Revenue adds up over a split of the order list. */
  lemma RevenueAppend(a: seq<Order>, b: seq<Order>)
    ensures TotalRevenue(a + b) == TotalRevenue(a) + TotalRevenue(b)
  {
    FilterAppend(WasDelivered(), a, b);
    SumTotalsAppend(Filter(WasDelivered(), a), Filter(WasDelivered(), b));
  }

  /** "Pending Orders": how many orders are still processing. */
  function PendingOrders(orders: seq<Order>): (n: nat)
    ensures n <= |orders|
    ensures n == 0 <==> forall o :: o in orders ==> o.status != Processing
    ensures n == |orders| <==> forall o :: o in orders ==> o.status == Processing
  {
    var pending := Filter(InProcessing(), orders);
    assert |pending| > 0 ==> pending[0] in pending;
    FilterFullLength(InProcessing(), orders);
    |pending|
  }

  /** "Low Stock Items": how many products have fewer than ten in stock. */
  function LowStockItems(products: seq<Product>): (n: nat)
    ensures n <= |products|
    ensures n == 0 <==> forall p :: p in products ==> p.stock >= 10
    ensures n == |products| <==> forall p :: p in products ==> p.stock < 10
  {
    var low := Filter(LowOnStock(), products);
    assert |low| > 0 ==> low[0] in low;
    FilterFullLength(LowOnStock(), products);
    |low|
  }

  /** The filter of a one-element list keeps the element iff the test accepts it. */
  lemma FilterOne<T(!new)>(keep: T -> bool, x: T)
    ensures Filter(keep, [x]) == if keep(x) then [x] else []
  {
    assert [x][1..] == [];
  }

  /**
   * The three figures for a single order and a single product: the order's
   * total iff it was delivered, one pending order iff it is processing, one
   * low-stock item iff fewer than ten are in stock. With the append lemmas
   * below these fix every figure for every list.
   */
  lemma DashboardOfOne(o: Order, p: Product)
    ensures TotalRevenue([o]) == if o.status == Delivered then o.totalCents else 0
    ensures PendingOrders([o]) == if o.status == Processing then 1 else 0
    ensures LowStockItems([p]) == if p.stock < 10 then 1 else 0
  {
    FilterOne(WasDelivered(), o);
    FilterOne(InProcessing(), o);
    FilterOne(LowOnStock(), p);
    assert [o][..0] == [];
    assert SumTotals([o]) == SumTotals([]) + o.totalCents;
  }

  /** The pending count adds up over a split of the order list. */
  lemma PendingAppend(a: seq<Order>, b: seq<Order>)
    ensures PendingOrders(a + b) == PendingOrders(a) + PendingOrders(b)
  {
    FilterAppend(InProcessing(), a, b);
  }

  /** The low-stock count adds up over a split of the product list. */
  lemma LowStockAppend(a: seq<Product>, b: seq<Product>)
    ensures LowStockItems(a + b) == LowStockItems(a) + LowStockItems(b)
  {
    FilterAppend(LowOnStock(), a, b);
  }

  const OrdersPerPage := 10

  /** `Math.ceil(n / 10)`: the fewest pages of ten that hold `n` orders. */
  function TotalPages(n: nat): (pages: nat)
    ensures pages * OrdersPerPage >= n
    ensures pages == 0 || (pages - 1) * OrdersPerPage < n
  {
    (n + OrdersPerPage - 1) / OrdersPerPage
  }

  /** `paginatedOrders`: the orders shown on page `page` (pages count from 1). */
  function OrdersPage(orders: seq<Order>, page: int): (r: seq<Order>)
    ensures page >= 1 ==> r == orders[Min((page - 1) * OrdersPerPage, |orders|)..Min(page * OrdersPerPage, |orders|)]
    ensures page >= 1 ==> |r| <= OrdersPerPage
    ensures 1 <= page <= TotalPages(|orders|) ==> |r| > 0
    ensures page > TotalPages(|orders|) ==> r == []
  {
    JsSlice(orders, (page - 1) * OrdersPerPage, page * OrdersPerPage)
  }

  /** Pages 1 to `k` one after another. */
  function FirstPages(orders: seq<Order>, k: nat): seq<Order>
  {
    if k == 0 then [] else FirstPages(orders, k - 1) + OrdersPage(orders, k)
  }

  lemma {:induction false} FirstPagesArePrefix(orders: seq<Order>, k: nat)
    ensures FirstPages(orders, k) == orders[..Min(k * OrdersPerPage, |orders|)]
  {
    if k > 0 {
      FirstPagesArePrefix(orders, k - 1);
      var a := Min((k - 1) * OrdersPerPage, |orders|);
      var b := Min(k * OrdersPerPage, |orders|);
      assert orders[..a] + orders[a..b] == orders[..b];
    }
  }

  /** Pages 1 to `totalPages`, read in turn, are exactly the order list: every order on one page, in order. */
  lemma PagesPartitionOrders(orders: seq<Order>)
    ensures FirstPages(orders, TotalPages(|orders|)) == orders
  {
    FirstPagesArePrefix(orders, TotalPages(|orders|));
  }

  /** The product list's modal: closed, or open on a product (None when adding). */
  datatype ProductsView = ProductsView(modalOpen: bool, editing: Option<Product>)

  /** What a submit asks of the application. */
  datatype ProductRequest = AddProduct(draft: ProductForm.Draft) | UpdateProduct(product: Product)

  function OpenModal(product: Option<Product>): (v: ProductsView)
    ensures v.modalOpen && v.editing == product
  {
    ProductsView(true, product)
  }

  /**
   * `handleSubmit`: data carrying an id goes to the update handler, data
   * without one to the add handler; either way the modal closes.
   */
  function HandleSubmit(v: ProductsView, data: ProductForm.FormData): (r: (ProductsView, ProductRequest))
    ensures r.0 == ProductsView(false, None)
    ensures data.ExistingProduct? <==> r.1.UpdateProduct?
    ensures data.ExistingProduct? ==> r.1.product == data.product
    ensures data.NewProduct? ==> r.1.draft == data.draft
  {
    var request := match data
      case ExistingProduct(p) => UpdateProduct(p)
      case NewProduct(d) => AddProduct(d);
    (ProductsView(false, None), request)
  }

  /** Editing a product that has an image and saving without changes asks to update that very product. */
  lemma EditUnchangedRequestsSameProduct(p: Product)
    requires p.imageUrl != ""
    ensures var view := OpenModal(Some(p));
      HandleSubmit(view, ProductForm.Submit(ProductForm.Load(view.editing))).1 == UpdateProduct(p)
  {
    ProductForm.LoadThenSubmitIsIdentity(p);
  }

  /** The two options the role selector offers. */
  datatype RoleOption = CustomerOption | AdminOption

  /** Choosing a role in the users table: nothing for a SuperAdmin, whose selector is disabled. */
  function RoleChange(u: User, choice: RoleOption): (r: Option<UserRole>)
    ensures r.None? <==> u.role == SuperAdmin
    ensures r.Some? ==> r.value != SuperAdmin
    ensures r.Some? ==> (r.value == Admin <==> choice == AdminOption)
  {
    if u.role == SuperAdmin then None
    else Some(if choice == AdminOption then Admin else Customer)
  }
}
