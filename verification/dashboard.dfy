/**
 * The dashboard page (app/dashboard/page.tsx): a state machine over the held
 * product list, the loading flag, the modal flag and the edit target. Each
 * handler takes the outcomes of the requests it awaits, and of `confirm()`,
 * as parameters, and reports the requests it issued in order.
 */
module Dashboard {
  import opened Wrappers
  import opened Api
  import Auth
  import ProductTable
  import ProductModal

  datatype State = State(
    products: seq<Product>,
    isLoading: bool,
    isModalOpen: bool,
    editing: Option<Product>)

  /** The state the page mounts with. */
  const Initial: State := State([], true, false, None)

  /** The state after a handler, with the requests it issued. */
  datatype Step = Step(state: State, requests: seq<Request>)

  /** A closed modal has no edit target. */
  ghost predicate Consistent(s: State)
  {
    !s.isModalOpen ==> s.editing.None?
  }

  /** `loadProducts`: `response` is the fetched list, or `None` when the request failed. */
  function LoadProducts(s: State, response: Option<seq<Product>>): (r: Step)
    ensures r.requests == [ListProducts]
    ensures !r.state.isLoading
    ensures response.Some? ==> r.state.products == response.value
    ensures response.None? ==> r.state.products == s.products
    ensures r.state.isModalOpen == s.isModalOpen && r.state.editing == s.editing
  {
    Step(s.(products := response.GetOr(s.products), isLoading := false), [ListProducts])
  }

  /** The write `handleSaveProduct` sends: an update of the edit target, or a create. */
  function SaveRequest(s: State, input: ProductInput): (q: Request)
    ensures q.IsWrite() && !q.DeleteProduct?
    ensures q.UpdateProduct? <==> s.editing.Some?
    ensures q.UpdateProduct? ==> q.id == s.editing.value.id
    ensures q.input == input
  {
    match s.editing
    case Some(p) => UpdateProduct(p.id, input)
    case None => CreateProduct(input)
  }

  /**
   * `handleSaveProduct`. `written` says whether the write succeeded;
   * `reloaded` is the outcome of the list request that follows it.
   */
  function SaveProduct(s: State, input: ProductInput, written: bool, reloaded: Option<seq<Product>>): (r: Step)
    ensures |r.requests| >= 1 && r.requests[0] == SaveRequest(s, input)
    ensures forall i :: 1 <= i < |r.requests| ==> !r.requests[i].IsWrite()
    ensures written ==> r.requests == [SaveRequest(s, input), ListProducts]
    ensures written ==> !r.state.isModalOpen && r.state.editing.None? && !r.state.isLoading
    ensures written ==> r.state.products == reloaded.GetOr(s.products)
    ensures !written ==> r.state == s && |r.requests| == 1
  {
    var write := SaveRequest(s, input);
    if !written then Step(s, [write])
    else
      var load := LoadProducts(s, reloaded);
      Step(load.state.(isModalOpen := false, editing := None), [write] + load.requests)
  }

  /**
   * `handleDeleteProduct`. `confirmed` is the answer to `confirm()`;
   * `deleted` whether the request succeeded; `reloaded` the list that follows.
   */
  function DeleteProduct(s: State, id: int, confirmed: bool, deleted: bool, reloaded: Option<seq<Product>>): (r: Step)
    ensures !confirmed ==> r.state == s && r.requests == []
    ensures confirmed ==> |r.requests| >= 1 && r.requests[0] == Request.DeleteProduct(id)
    ensures confirmed && !deleted ==> r.state == s && |r.requests| == 1
    ensures confirmed && deleted ==> r.requests == [Request.DeleteProduct(id), ListProducts]
    ensures confirmed && deleted ==> r.state.products == reloaded.GetOr(s.products) && !r.state.isLoading
    ensures r.state.isModalOpen == s.isModalOpen && r.state.editing == s.editing
  {
    if !confirmed then Step(s, [])
    else if !deleted then Step(s, [Request.DeleteProduct(id)])
    else
      var load := LoadProducts(s, reloaded);
      Step(load.state, [Request.DeleteProduct(id)] + load.requests)
  }

  /** `handleEditProduct`: open the modal on this product. */
  function EditProduct(s: State, p: Product): (r: State)
    ensures r.isModalOpen && r.editing == Some(p)
    ensures r.products == s.products && r.isLoading == s.isLoading
  {
    s.(editing := Some(p), isModalOpen := true)
  }

  /** `handleAddProduct`: open the modal with no edit target. */
  function AddProduct(s: State): (r: State)
    ensures r.isModalOpen && r.editing.None?
    ensures r.products == s.products && r.isLoading == s.isLoading
  {
    s.(editing := None, isModalOpen := true)
  }

  /** The modal's `onClose`: close it and forget the edit target. */
  function CloseModal(s: State): (r: State)
    ensures !r.isModalOpen && r.editing.None?
    ensures r.products == s.products && r.isLoading == s.isLoading
  {
    s.(isModalOpen := false, editing := None)
  }

  /** Every transition keeps a closed modal free of an edit target. */
  lemma TransitionsKeepConsistency(s: State, p: Product, input: ProductInput, id: int, ok: bool, yes: bool, list: Option<seq<Product>>)
    requires Consistent(s)
    ensures Consistent(Initial)
    ensures Consistent(LoadProducts(s, list).state)
    ensures Consistent(SaveProduct(s, input, ok, list).state)
    ensures Consistent(DeleteProduct(s, id, yes, ok, list).state)
    ensures Consistent(EditProduct(s, p)) && Consistent(AddProduct(s)) && Consistent(CloseModal(s))
  {
  }

  predicate IsAdmin(u: Auth.User)
  {
    u.role == Auth.Admin
  }

  /** What the page draws: a spinner until there is a user, then the board. */
  datatype Screen =
    | Spinner
    | Board(user: Auth.User, showAddButton: bool, table: Option<ProductTable.View>, modal: ProductModal.Props)

  function Render(s: State, authLoading: bool, user: Option<Auth.User>): (sc: Screen)
    ensures sc.Spinner? <==> authLoading || user.None?
    ensures sc.Board? ==> sc.user == user.value
    ensures sc.Board? ==> (sc.showAddButton <==> user.value.role == Auth.Admin)
    ensures sc.Board? ==> (sc.table.None? <==> s.isLoading)
    ensures sc.Board? && sc.table.Some? ==> sc.table.value == ProductTable.Render(s.products, sc.showAddButton)
    ensures sc.Board? ==> sc.modal == ProductModal.Props(s.isModalOpen, s.editing)
  {
    if authLoading || user.None? then Spinner
    else
      var admin := IsAdmin(user.value);
      Board(user.value, admin,
            if s.isLoading then None else Some(ProductTable.Render(s.products, admin)),
            ProductModal.Props(s.isModalOpen, s.editing))
  }

  /**
   * The redirect effect: leave for `/signin` once auth has loaded and found no
   * user. It never fires while auth is loading, it fires only while the page
   * draws the spinner, and whenever it holds back after loading the page draws
   * the board.
   */
  function ShouldRedirect(authLoading: bool, user: Option<Auth.User>): (r: bool)
    ensures r ==> forall s :: Render(s, authLoading, user).Spinner?
    ensures !r ==> authLoading || forall s :: Render(s, authLoading, user).Board?
    ensures authLoading ==> !r
  {
    !authLoading && user.None?
  }

  /**
   * An unauthenticated visitor never sees the board: once the session store
   * has finished restoring, the page redirects exactly when no user came back.
   */
  lemma RedirectAfterRestore(storage: Auth.Storage, c: Auth.JsonCodec, s: State)
    ensures var session := Auth.CheckAuth(Auth.Start(storage), c);
      ShouldRedirect(session.isLoading, session.user) <==> session.user.None?
    ensures forall authLoading, user :: ShouldRedirect(authLoading, user) ==> Render(s, authLoading, user).Spinner?
  {
  }

  /**
   * `handleLogout` then the redirect effect: after logout the effect sends the
   * page to `/signin` exactly when auth has finished loading. The handler's own
   * `router.push` is not modelled.
   */
  lemma LogoutRedirects(session: Auth.Session)
    ensures var after := Auth.Logout(session);
      ShouldRedirect(after.isLoading, after.user) <==> !session.isLoading
  {
  }

  /** The Add button and the table's edit and delete controls appear together, exactly for admins. */
  lemma AdminControlsAgree(s: State, u: Auth.User)
    requires !s.isLoading && s.products != []
    ensures var sc := Render(s, false, Some(u));
      && sc.table.Some? && sc.table.value.Table?
      && (sc.showAddButton <==> IsAdmin(u))
      && (ProductTable.ActionsColumn in sc.table.value.header <==> IsAdmin(u))
      && forall i :: 0 <= i < |sc.table.value.rows| ==> (sc.table.value.rows[i].actions.Some? <==> IsAdmin(u))
  {
  }

  /**
   * Clicking Edit in row `i` and saving updates exactly product `i`, and
   * clicking Delete in row `i` and confirming deletes exactly product `i`.
   */
  lemma RowButtonsReachTheirProduct(s: State, i: int, input: ProductInput, ok: bool, list: Option<seq<Product>>)
    requires 0 <= i < |s.products|
    ensures var actions := ProductTable.Render(s.products, true).rows[i].actions.value;
      && SaveProduct(EditProduct(s, actions.editArg), input, ok, list).requests[0] == UpdateProduct(s.products[i].id, input)
      && DeleteProduct(s, actions.deleteArg, true, ok, list).requests[0] == Request.DeleteProduct(s.products[i].id)
  {
  }

  /** After Add, saving creates; a failed save leaves the modal open with no target. */
  lemma AddThenSaveCreates(s: State, input: ProductInput, list: Option<seq<Product>>)
    ensures SaveProduct(AddProduct(s), input, true, list).requests == [CreateProduct(input), ListProducts]
    ensures SaveProduct(AddProduct(s), input, false, list).state == AddProduct(s)
  {
  }

  /**
   * The form the modal shows when the board opens it from a consistent closed
   * state: blank with no errors after Add, the product's values after Edit.
   */
  lemma OpenedFormMatchesTarget(s: State, p: Product, form: ProductModal.Form, c: ProductModal.NumberCodec)
    requires Consistent(s) && !s.isModalOpen
    ensures var before := ProductModal.Props(s.isModalOpen, s.editing);
      var added := AddProduct(s);
      ProductModal.AfterPropsChange(form, before, ProductModal.Props(added.isModalOpen, added.editing), c)
        == ProductModal.Form(ProductModal.Blank, ProductModal.NoErrors, form.isSubmitting)
    ensures var before := ProductModal.Props(s.isModalOpen, s.editing);
      var edited := EditProduct(s, p);
      ProductModal.AfterPropsChange(form, before, ProductModal.Props(edited.isModalOpen, edited.editing), c).data
        == ProductModal.FromProduct(p, c)
  {
  }
}
