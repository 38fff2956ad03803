/** The decisions the admin page takes: the demo login and logout, the
    products tab's query and its create-or-update and delete dispatch, and
    the badges and image fallbacks it renders. */
module AdminPage {
  import opened JsValues
  import opened Query
  import opened DataHook
  import opened ProductForm

  // ---------------------------------------------------------------------
  // Login
  // ---------------------------------------------------------------------

  const AdminUsername: string := "admin"
  const AdminPassword: string := "jowhara2024"

  /** The page's authentication flag, the login form's two fields, and the
      busy flag shown while a login is in flight. */
  datatype Session = Session(authenticated: bool, username: string, password: string, loading: bool)

  const SignedOut := Session(false, "", "", false)

  /** The state once a login attempt has finished, and whether the
      "Invalid credentials" alert was shown. The one-second delay is not
      modelled. */
  datatype LoginResult = LoginResult(session: Session, alerted: bool)

  /** `handleLogin`: only the exact demo pair signs in; any other pair
      raises the alert and leaves the flag as it was. The typed fields are
      kept either way and the busy flag is cleared. */
  function HandleLogin(s: Session): (r: LoginResult)
    ensures r.session.authenticated <==>
      s.authenticated || (s.username == AdminUsername && s.password == AdminPassword)
    ensures r.alerted <==> !(s.username == AdminUsername && s.password == AdminPassword)
    ensures r.session == s.(authenticated := r.session.authenticated, loading := false)
  {
    if s.username == AdminUsername && s.password == AdminPassword then
      LoginResult(s.(authenticated := true, loading := false), false)
    else
      LoginResult(s.(loading := false), true)
  }

  /** `handleLogout`: signed out, with both form fields emptied. */
  function HandleLogout(s: Session): (r: Session)
    ensures !r.authenticated && r.username == "" && r.password == ""
    ensures r.loading == s.loading
  {
    s.(authenticated := false, username := "", password := "")
  }

  /** From the signed-out page, a login succeeds exactly for the demo pair. */
  lemma LoginOnlyWithCredentials(username: string, password: string)
    ensures HandleLogin(SignedOut.(username := username, password := password)).session.authenticated
        <==> username == "admin" && password == "jowhara2024"
  {
  }

  /** Logging out then submitting the emptied form never signs back in. */
  lemma LoginAfterLogoutFails(s: Session)
    requires !s.loading
    ensures HandleLogout(s) == SignedOut
    ensures !HandleLogin(HandleLogout(s)).session.authenticated
    ensures HandleLogin(HandleLogout(s)).alerted
  {
  }

  // ---------------------------------------------------------------------
  // Products tab
  // ---------------------------------------------------------------------

  /** The products tab's query: its search box and three drop-downs (each ""
      when unset) passed to `useProducts`. */
  function ProductsTabQuery(search: string, category: string, brand: string, gender: string): (q: QueryDesc)
    ensures q.table == ProductsTable && q.limit.None?
    ensures q.orders == [OrderBy("featured", false), OrderBy("created_at", false)]
  {
    var c := UseProducts(Some(NoFilter.(search := Some(search), category := Some(category),
                                        brand := Some(brand), gender := Some(gender))), None, None);
    ComposeQuery(c.table, c.options)
  }

  /** Each non-empty selection of the tab adds its predicate, an empty one
      adds nothing, and no other predicate is added. */
  lemma ProductsTabQueryFilters(search: string, category: string, brand: string, gender: string)
    ensures var ps := ProductsTabQuery(search, category, brand, gender).predicates;
      && (category != "" <==> Eq("category_id", Text(category)) in ps)
      && (brand != "" <==> Eq("brand_id", Text(brand)) in ps)
      && (gender != "" <==> Eq("gender_category", Text(gender)) in ps)
      && (search != "" <==> NameOrDescription(search) in ps)
      && !Constrains(ps, "price") && !Constrains(ps, "featured") && !Constrains(ps, "status")
      && |ps| == Ind(category != "") + Ind(brand != "") + Ind(gender != "") + Ind(search != "")
  {
    var f := NoFilter.(search := Some(search), category := Some(category), brand := Some(brand), gender := Some(gender));
    ProductsQueryHonoursFilter(f, None, None, Some(true));
    var ps := ProductsTabQuery(search, category, brand, gender).predicates;
    if category == "" {
      NotConstrainedNotIn(ps, Eq("category_id", Text(category)));
    }
    if brand == "" {
      NotConstrainedNotIn(ps, Eq("brand_id", Text(brand)));
    }
    if gender == "" {
      NotConstrainedNotIn(ps, Eq("gender_category", Text(gender)));
    }
  }

  /** An equality predicate on a column the list does not constrain is not in it. */
  lemma NotConstrainedNotIn(ps: seq<Predicate>, p: Predicate)
    requires !p.AnyOf? && !Constrains(ps, p.column)
    ensures p !in ps
  {
  }

  /** Whether the product form is open, and the product it edits (none when
      adding a new one). */
  datatype ProductsTab = ProductsTab(showForm: bool, editing: Option<ProductRow>)

  const ClosedTab := ProductsTab(false, None)

  /** The write the tab asks the data hook for. */
  datatype StoreCall = Insert(data: ProductForm) | Update(id: string, data: ProductForm) | Remove(id: string)

  /** "Add Product": the form opens; the editing target is left as it is. */
  function OpenNewProduct(tab: ProductsTab): (r: ProductsTab)
    ensures r.showForm && r.editing == tab.editing
  {
    tab.(showForm := true)
  }

  /** `handleEdit`: the form opens on the chosen product. */
  function HandleEdit(tab: ProductsTab, p: ProductRow): (r: ProductsTab)
    ensures r.showForm && r.editing == Some(p)
  {
    ProductsTab(true, Some(p))
  }

  /** The form's `onClose`: the form closes and the editing target is cleared. */
  function CloseForm(tab: ProductsTab): (r: ProductsTab)
    ensures !r.showForm && r.editing.None?
  {
    ClosedTab
  }

  /** The write `handleSubmit` awaits: an update of the edited product's id,
      or an insert when nothing is being edited. */
  function SubmitCall(tab: ProductsTab, data: ProductForm): (c: StoreCall)
    ensures c.Update? <==> tab.editing.Some?
    ensures c.Insert? <==> tab.editing.None?
    ensures c.Update? ==> c.id == tab.editing.value.id
    ensures !c.Remove? && c.data == data
  {
    match tab.editing
    case Some(p) => Update(p.id, data)
    case None => Insert(data)
  }

  /** How the tab's `handleSubmit` ends: the write it issued, the tab state
      afterwards, and whether the write's rejection escaped to the caller. */
  datatype SubmitResult = SubmitResult(call: StoreCall, tab: ProductsTab, threw: bool)

  /** `handleSubmit`: the write is issued; only when it is accepted does the
      form close and the editing target get cleared. A rejection escapes
      before the reset, so the form stays open on the same target. */
  function HandleSubmit(tab: ProductsTab, data: ProductForm, accepted: bool): (r: SubmitResult)
    ensures r.call == SubmitCall(tab, data)
    ensures accepted ==> r.tab == ClosedTab && !r.threw
    ensures !accepted ==> r.tab == tab && r.threw
  {
    var call := SubmitCall(tab, data);
    if accepted then SubmitResult(call, ProductsTab(false, None), false)
    else SubmitResult(call, tab, true)
  }

  /** `handleDelete`: `remove(id)` is issued only when the confirmation is
      accepted. */
  function HandleDelete(id: string, confirmed: bool): (r: Option<StoreCall>)
    ensures r.Some? <==> confirmed
    ensures r.Some? ==> r.value == Remove(id)
  {
    if confirmed then Some(Remove(id)) else None
  }

  /** A delete and a save never issue the same write: a confirmed delete
      carries only the id, never form data, and a declined one writes
      nothing at all. */
  lemma DeleteIsNeverASave(id: string, confirmed: bool, tab: ProductsTab, data: ProductForm)
    ensures HandleDelete(id, confirmed) != Some(SubmitCall(tab, data))
    ensures var r := HandleDelete(id, confirmed); r.Some? ==> !r.value.Insert? && !r.value.Update?
  {
  }

  /** The form's own `handleSubmit` wrapped around the tab's: the cleaned
      form is sent; on acceptance the form's `onClose` runs as well; a
      rejection is caught and logged by the form, so nothing escapes and the
      tab is left as it was. */
  function SubmitProductForm(tab: ProductsTab, form: ProductForm, accepted: bool): (r: SubmitResult)
    ensures r.call == SubmitCall(tab, CleanForSubmit(form))
    ensures accepted ==> r.tab == ClosedTab
    ensures !accepted ==> r.tab == tab
    ensures !r.threw
  {
    var inner := HandleSubmit(tab, CleanForSubmit(form), accepted);
    if inner.threw then inner.(threw := false)
    else inner.(tab := CloseForm(inner.tab))
  }

  /** Editing a product and saving the form unchanged updates that product's
      id with its loaded values, blank images and tags removed; saving twice
      sends the same data. */
  lemma EditThenSaveUpdatesSameProduct(tab: ProductsTab, p: ProductRow)
    ensures var r := SubmitProductForm(HandleEdit(tab, p), InitialForm(Some(p)), true);
      && r.call == Update(p.id, CleanForSubmit(InitialForm(Some(p))))
      && r.call.data.name == p.name && r.call.data.slug == p.slug
      && r.tab == ClosedTab
    ensures SubmitProductForm(HandleEdit(tab, p), CleanForSubmit(InitialForm(Some(p))), true).call
         == SubmitProductForm(HandleEdit(tab, p), InitialForm(Some(p)), true).call
  {
    CleanIdempotent(InitialForm(Some(p)));
  }

  /** A failed save can be retried: the form is still open on the same
      target, so the retry issues the same write. */
  lemma RejectedSaveRetriesSameWrite(tab: ProductsTab, form: ProductForm)
    ensures var first := SubmitProductForm(tab, form, false);
      && first.tab == tab
      && SubmitProductForm(first.tab, form, true).call == first.call
  {
  }

  // ---------------------------------------------------------------------
  // Badges and image fallbacks
  // ---------------------------------------------------------------------

  /** The badge colours the tables use. */
  datatype Badge = Green | Yellow | Red | Gray

  /** How good a badge is, for comparing stock badges. */
  function Rank(b: Badge): nat {
    match b
    case Red => 0
    case Gray => 0
    case Yellow => 1
    case Green => 2
  }

  /** The stock badge: green above the low-stock threshold, yellow when some
      stock is left, red otherwise. */
  function StockBadge(stock: int, lowThreshold: int): (b: Badge)
    ensures b == Green <==> stock > lowThreshold
    ensures b == Yellow <==> stock <= lowThreshold && stock > 0
    ensures b == Red <==> stock <= lowThreshold && stock <= 0
    ensures b != Gray
  {
    if stock > lowThreshold then Green
    else if stock > 0 then Yellow
    else Red
  }

  /** More stock never gives a worse badge. With a negative threshold an
      empty shelf is still green, since only the first comparison is made. */
  lemma StockBadgeMonotone(s1: int, s2: int, lowThreshold: int)
    requires s1 <= s2
    ensures Rank(StockBadge(s1, lowThreshold)) <= Rank(StockBadge(s2, lowThreshold))
    ensures lowThreshold < 0 ==> StockBadge(0, lowThreshold) == Green
  {
  }

  /** The product status badge. */
  function StatusBadge(status: string): (b: Badge)
    ensures b == Green <==> status == "active"
    ensures b == Red <==> status == "inactive"
    ensures b == Gray <==> status != "active" && status != "inactive"
    ensures b != Yellow
  {
    if status == "active" then Green
    else if status == "inactive" then Red
    else Gray
  }

  /** The category, brand and gender card badge. */
  function ActiveBadge(active: bool): (b: Badge)
    ensures b == Green <==> active
    ensures b == Red <==> !active
  {
    if active then Green else Red
  }

  /** A product saved from the form with the default status shows a green
      status badge, and a newly created product with no stock a red one. */
  lemma NewProductBadges()
    ensures StatusBadge(InitialForm(None).status) == Green
    ensures StockBadge(InitialForm(None).stock_quantity, InitialForm(None).low_stock_threshold) == Red
  {
  }

  const Placeholder: string := "/placeholder.jpg"

  /** The products table thumbnail: the first entry of a non-empty images
      array, the placeholder otherwise. */
  function ProductThumbnail(images: JsList): (src: string)
    ensures images.Array? && |images.items| > 0 ==> src == images.items[0]
    ensures !(images.Array? && |images.items| > 0) ==> src == Placeholder
  {
    if images.Array? && |images.items| > 0 then images.items[0] else Placeholder
  }

  /** `image || '/placeholder.jpg'` for category images, brand logos and
      gender images: a missing or empty source falls back. */
  function ImageOrPlaceholder(src: Option<string>): (r: string)
    ensures TruthyStr(src) ==> r == src.value
    ensures !TruthyStr(src) ==> r == Placeholder
    ensures r != ""
  {
    StrOr(src, Placeholder)
  }

  /** The placeholder path starts with `/`, which is not white space. */
  lemma PlaceholderIsNotBlank()
    ensures !IsBlank(Placeholder)
  {
    assert Placeholder[0] == '/';
    BlankIffAllSpace(Placeholder);
  }

  /** Images that went through the form's cleanup never yield a blank
      thumbnail: either a non-blank first image or the placeholder. An
      uncleaned `[""]`, the new-product default, yields the empty source. */
  lemma CleanedImagesGiveNonBlankThumbnail(f: ProductForm)
    ensures !IsBlank(ProductThumbnail(CleanForSubmit(f).images))
    ensures ProductThumbnail(InitialForm(None).images) == ""
  {
    var images := CleanForSubmit(f).images;
    assert forall i :: 0 <= i < |images.items| ==> !IsBlank(images.items[i]);
    assert !IsBlank(ProductThumbnail(images)) by {
      if !(images.Array? && |images.items| > 0) {
        PlaceholderIsNotBlank();
      }
    }
    assert InitialForm(None).images == Array([""]);
  }
}
