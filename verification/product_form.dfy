/** The product editor's form state and its pure edits: the initial values
    taken from the product being edited (or the defaults for a new one), the
    slug auto-generation, the image and tag list edits, and the cleanup
    applied before the form is submitted. */
module ProductForm {
  import opened JsValues
  import opened Slug

  /** A stored product as the store reads it (the `enhanced_products` row;
      `dimensions` is not modelled). Prices and quantities are whole numbers. */
  datatype ProductRow = ProductRow(
    id: string,
    name: string,
    slug: string,
    sku: Option<string>,
    brand_id: Option<string>,
    category_id: Option<string>,
    gender_category: Option<string>,
    price: int,
    compare_price: Option<int>,
    cost_price: Option<int>,
    description: Option<string>,
    short_description: Option<string>,
    ingredients: Option<string>,
    usage_instructions: Option<string>,
    benefits: Option<string>,
    images: JsList,
    video_url: Option<string>,
    weight: Option<int>,
    stock_quantity: int,
    low_stock_threshold: int,
    track_inventory: bool,
    allow_backorder: bool,
    featured: bool,
    status: string,
    seo_title: Option<string>,
    seo_description: Option<string>,
    tags: Option<seq<string>>,
    sort_order: int,
    created_at: string,
    updated_at: string)

  /** The values the form holds: the insert payload it submits. */
  datatype ProductForm = ProductForm(
    name: string,
    slug: string,
    sku: string,
    brand_id: Option<string>,
    category_id: Option<string>,
    gender_category: string,
    price: int,
    compare_price: Option<int>,
    cost_price: Option<int>,
    description: string,
    short_description: string,
    ingredients: string,
    usage_instructions: string,
    benefits: string,
    images: JsList,
    video_url: string,
    weight: Option<int>,
    stock_quantity: int,
    low_stock_threshold: int,
    track_inventory: bool,
    allow_backorder: bool,
    featured: bool,
    status: string,
    seo_title: string,
    seo_description: string,
    tags: JsList,
    sort_order: int)

  // ---------------------------------------------------------------------
  // Initial values
  // ---------------------------------------------------------------------

  /** `product?.field` for a field the row always has. */
  function Pick<T>(product: Option<ProductRow>, field: ProductRow -> T): Option<T> {
    match product
    case None => None
    case Some(p) => Some(field(p))
  }

  /** `product?.field` for a nullable field: a missing product and a null
      field are both "no value". */
  function PickNullable<T>(product: Option<ProductRow>, field: ProductRow -> Option<T>): Option<T> {
    match product
    case None => None
    case Some(p) => field(p)
  }

  /** `product?.tags || []`: a present array (even an empty one) is kept. */
  function TagsOrEmpty(tags: Option<seq<string>>): JsList {
    match tags
    case Some(t) => Array(t)
    case None => Array([])
  }

  /** The form's initial state: every field of the product being edited,
      each passed through `||` with its default, except `track_inventory`
      and `allow_backorder`, which go through `??`. */
  function InitialForm(product: Option<ProductRow>): (f: ProductForm)
    ensures product.None? ==>
      && f.name == "" && f.slug == "" && f.sku == ""
      && f.brand_id.None? && f.category_id.None?
      && f.gender_category == "Unisex" && f.status == "active"
      && f.price == 0 && f.compare_price.None? && f.cost_price.None? && f.weight.None?
      && f.description == "" && f.short_description == "" && f.ingredients == ""
      && f.usage_instructions == "" && f.benefits == "" && f.video_url == ""
      && f.seo_title == "" && f.seo_description == ""
      && f.stock_quantity == 0 && f.low_stock_threshold == 5
      && f.track_inventory && !f.allow_backorder && !f.featured
      && f.images == Array([""]) && f.tags == Array([]) && f.sort_order == 0
    // an edited product: fields a falsy value would fall back on are listed
    // with their fallback; a null text becomes the empty text
    ensures product.Some? ==> var p := product.value;
      && f.name == p.name && f.slug == p.slug
      && f.sku == (if p.sku.Some? then p.sku.value else "")
      && f.brand_id == (if p.brand_id == Some("") then None else p.brand_id)
      && f.category_id == (if p.category_id == Some("") then None else p.category_id)
      && f.gender_category ==
         (if p.gender_category.Some? && p.gender_category.value != "" then p.gender_category.value else "Unisex")
      && f.price == p.price && f.stock_quantity == p.stock_quantity && f.sort_order == p.sort_order
      && f.track_inventory == p.track_inventory && f.allow_backorder == p.allow_backorder
      && f.featured == p.featured
      && f.low_stock_threshold == (if p.low_stock_threshold == 0 then 5 else p.low_stock_threshold)
      && f.status == (if p.status == "" then "active" else p.status)
      && f.compare_price == (if p.compare_price == Some(0) then None else p.compare_price)
      && f.cost_price == (if p.cost_price == Some(0) then None else p.cost_price)
      && f.weight == (if p.weight == Some(0) then None else p.weight)
      && f.images == (if TruthyList(p.images) then p.images else Array([""]))
      && f.tags == Array(p.tags.GetOr([]))
    ensures product.Some? ==> var p := product.value;
      && f.description == (if p.description.Some? then p.description.value else "")
      && f.short_description == (if p.short_description.Some? then p.short_description.value else "")
      && f.ingredients == (if p.ingredients.Some? then p.ingredients.value else "")
      && f.usage_instructions == (if p.usage_instructions.Some? then p.usage_instructions.value else "")
      && f.benefits == (if p.benefits.Some? then p.benefits.value else "")
      && f.video_url == (if p.video_url.Some? then p.video_url.value else "")
      && f.seo_title == (if p.seo_title.Some? then p.seo_title.value else "")
      && f.seo_description == (if p.seo_description.Some? then p.seo_description.value else "")
  {
    ProductForm(
      name := StrOr(Pick(product, (p: ProductRow) => p.name), ""),
      slug := StrOr(Pick(product, (p: ProductRow) => p.slug), ""),
      sku := StrOr(PickNullable(product, (p: ProductRow) => p.sku), ""),
      brand_id := StrOrNull(PickNullable(product, (p: ProductRow) => p.brand_id)),
      category_id := StrOrNull(PickNullable(product, (p: ProductRow) => p.category_id)),
      gender_category := StrOr(PickNullable(product, (p: ProductRow) => p.gender_category), "Unisex"),
      price := NumOr(Pick(product, (p: ProductRow) => p.price), 0),
      compare_price := NumOrNull(PickNullable(product, (p: ProductRow) => p.compare_price)),
      cost_price := NumOrNull(PickNullable(product, (p: ProductRow) => p.cost_price)),
      description := StrOr(PickNullable(product, (p: ProductRow) => p.description), ""),
      short_description := StrOr(PickNullable(product, (p: ProductRow) => p.short_description), ""),
      ingredients := StrOr(PickNullable(product, (p: ProductRow) => p.ingredients), ""),
      usage_instructions := StrOr(PickNullable(product, (p: ProductRow) => p.usage_instructions), ""),
      benefits := StrOr(PickNullable(product, (p: ProductRow) => p.benefits), ""),
      images := ListOr(Pick(product, (p: ProductRow) => p.images), Array([""])),
      video_url := StrOr(PickNullable(product, (p: ProductRow) => p.video_url), ""),
      weight := NumOrNull(PickNullable(product, (p: ProductRow) => p.weight)),
      stock_quantity := NumOr(Pick(product, (p: ProductRow) => p.stock_quantity), 0),
      low_stock_threshold := NumOr(Pick(product, (p: ProductRow) => p.low_stock_threshold), 5),
      track_inventory := Pick(product, (p: ProductRow) => p.track_inventory).GetOr(true),
      allow_backorder := Pick(product, (p: ProductRow) => p.allow_backorder).GetOr(false),
      featured := BoolOr(Pick(product, (p: ProductRow) => p.featured), false),
      status := StrOr(Pick(product, (p: ProductRow) => p.status), "active"),
      seo_title := StrOr(PickNullable(product, (p: ProductRow) => p.seo_title), ""),
      seo_description := StrOr(PickNullable(product, (p: ProductRow) => p.seo_description), ""),
      tags := TagsOrEmpty(PickNullable(product, (p: ProductRow) => p.tags)),
      sort_order := NumOr(Pick(product, (p: ProductRow) => p.sort_order), 0))
  }

  /** A row every field of which is falsy (empty strings, zeros, nulls,
      `false`, a falsy non-array `images`). */
  predicate FalsyRow(p: ProductRow) {
    && p.name == "" && p.slug == "" && !TruthyStr(p.sku)
    && !TruthyStr(p.brand_id) && !TruthyStr(p.category_id) && !TruthyStr(p.gender_category)
    && p.price == 0 && !TruthyNum(p.compare_price) && !TruthyNum(p.cost_price)
    && !TruthyStr(p.description) && !TruthyStr(p.short_description) && !TruthyStr(p.ingredients)
    && !TruthyStr(p.usage_instructions) && !TruthyStr(p.benefits)
    && !TruthyList(p.images) && !TruthyStr(p.video_url) && !TruthyNum(p.weight)
    && p.stock_quantity == 0 && p.low_stock_threshold == 0
    && !p.track_inventory && !p.allow_backorder && !p.featured
    && p.status == "" && !TruthyStr(p.seo_title) && !TruthyStr(p.seo_description)
    && p.tags.None? && p.sort_order == 0
  }

  /** Loading an all-falsy product gives the new-product form, except that
      `??` keeps its `track_inventory = false` where `||` would have put the
      default `true` back. */
  lemma FalsyRowLoadsAsNew(p: ProductRow)
    requires FalsyRow(p)
    ensures InitialForm(Some(p)) == InitialForm(None).(track_inventory := false)
    ensures InitialForm(None).track_inventory
  {
  }

  // ---------------------------------------------------------------------
  // Slug auto-generation
  // ---------------------------------------------------------------------

  /** The effect run when the name changes: while creating (no product is
      being edited) a non-empty name regenerates the slug; otherwise the
      form is left alone. */
  function SlugEffect(f: ProductForm, editing: bool): (r: ProductForm)
    ensures editing || f.name == "" ==> r == f
    ensures !editing && f.name != "" ==>
      && r == f.(slug := r.slug)
      && IsSlug(r.slug)
      && AlnumOnly(r.slug) == AlnumOnly(LowerAscii(f.name))
  {
    if f.name != "" && !editing then f.(slug := MakeSlug(f.name)) else f
  }

  /** When creating, the slug the effect writes is the lower-cased name's
      ASCII words joined by single dashes; running the effect again changes
      nothing. */
  lemma SlugEffectWritesJoinedWords(f: ProductForm)
    requires f.name != ""
    ensures SlugEffect(f, false).slug == JoinWithDash(Words(LowerAscii(f.name)))
    ensures SlugEffect(SlugEffect(f, false), false) == SlugEffect(f, false)
  {
    SlugIsJoinedWords(f.name);
  }

  // ---------------------------------------------------------------------
  // List edits
  // ---------------------------------------------------------------------

  /** `xs.filter((_, i) => i !== index)`. */
  function RemoveAt(xs: seq<string>, index: int): (r: seq<string>)
    ensures 0 <= index < |xs| ==> r == xs[..index] + xs[index + 1..]
    ensures !(0 <= index < |xs|) ==> r == xs
  {
    if |xs| == 0 then []
    else (if index == 0 then [] else [xs[0]]) + RemoveAt(xs[1..], index - 1)
  }

  /** `xs.map((x, i) => i === index ? value : x)`. */
  function ReplaceAt(xs: seq<string>, index: int, value: string): (r: seq<string>)
    ensures |r| == |xs|
    ensures 0 <= index < |xs| ==> r == xs[index := value]
    ensures !(0 <= index < |xs|) ==> r == xs
  {
    if |xs| == 0 then []
    else [if index == 0 then value else xs[0]] + ReplaceAt(xs[1..], index - 1, value)
  }

  /** `addImageField`: one empty entry is appended after the existing ones
      (a non-array `images` counts as no entries). */
  function AddImageField(f: ProductForm): (r: ProductForm)
    ensures r == f.(images := r.images)
    ensures r.images.Array? && |r.images.items| == |ItemsOrEmpty(f.images)| + 1
    ensures r.images.items[..|ItemsOrEmpty(f.images)|] == ItemsOrEmpty(f.images)
    ensures r.images.items[|ItemsOrEmpty(f.images)|] == ""
  {
    f.(images := Array(ItemsOrEmpty(f.images) + [""]))
  }

  /** `removeImageField(index)`: exactly the entry at `index` is dropped; an
      index outside the list drops nothing; a non-array becomes empty. */
  function RemoveImageField(f: ProductForm, index: int): (r: ProductForm)
    ensures r == f.(images := r.images) && r.images.Array?
    ensures f.images.Array? && 0 <= index < |f.images.items| ==>
      r.images.items == f.images.items[..index] + f.images.items[index + 1..]
    ensures f.images.Array? && !(0 <= index < |f.images.items|) ==> r.images == f.images
    ensures !f.images.Array? ==> r.images.items == []
  {
    f.(images := if f.images.Array? then Array(RemoveAt(f.images.items, index)) else Array([]))
  }

  /** `updateImageField(index, value)`: the length is kept and only the entry
      at `index` changes; a non-array becomes the single entry `value`. */
  function UpdateImageField(f: ProductForm, index: int, value: string): (r: ProductForm)
    ensures r == f.(images := r.images) && r.images.Array?
    ensures f.images.Array? ==>
      && |r.images.items| == |f.images.items|
      && forall i :: 0 <= i < |f.images.items| ==>
           r.images.items[i] == (if i == index then value else f.images.items[i])
    ensures !f.images.Array? ==> r.images.items == [value]
  {
    f.(images := if f.images.Array? then Array(ReplaceAt(f.images.items, index, value)) else Array([value]))
  }

  /** The form together with the new-tag input box (`None` when the box is
      not in the page). */
  datatype TagEdit = TagEdit(form: ProductForm, input: Option<string>)

  /** `tagInput?.value.trim()`. */
  function TrimmedInput(input: Option<string>): Option<string> {
    match input
    case None => None
    case Some(s) => Some(Trim(s))
  }

  /** `addTag`: a non-blank input is trimmed, appended after the existing tags
      and the box is cleared; a blank or missing input changes nothing. */
  function AddTag(f: ProductForm, input: Option<string>): (r: TagEdit)
    ensures input.Some? && !IsBlank(input.value) ==>
      && r.form == f.(tags := Array(ItemsOrEmpty(f.tags) + [Trim(input.value)]))
      && r.input == Some("")
    ensures input.None? || IsBlank(input.value) ==> r == TagEdit(f, input)
  {
    var newTag := TrimmedInput(input);
    if TruthyStr(newTag) then
      TagEdit(f.(tags := Array(ItemsOrEmpty(f.tags) + [newTag.value])), Some(""))
    else
      TagEdit(f, input)
  }

  /** `removeTag(index)`: exactly the tag at `index` is dropped. */
  function RemoveTag(f: ProductForm, index: int): (r: ProductForm)
    ensures r == f.(tags := r.tags) && r.tags.Array?
    ensures f.tags.Array? && 0 <= index < |f.tags.items| ==>
      r.tags.items == f.tags.items[..index] + f.tags.items[index + 1..]
    ensures f.tags.Array? && !(0 <= index < |f.tags.items|) ==> r.tags == f.tags
    ensures !f.tags.Array? ==> r.tags.items == []
  {
    f.(tags := if f.tags.Array? then Array(RemoveAt(f.tags.items, index)) else Array([]))
  }

  // ---------------------------------------------------------------------
  // Submit cleanup
  // ---------------------------------------------------------------------

  /** `xs.filter(x => x && x.trim() !== '')`: the entries that are not blank. */
  function KeepNonBlank(xs: seq<string>): (r: seq<string>)
    ensures |r| <= |xs|
    ensures forall i :: 0 <= i < |r| ==> !IsBlank(r[i])
  {
    if |xs| == 0 then []
    else (if xs[0] != "" && !IsBlank(xs[0]) then [xs[0]] else []) + KeepNonBlank(xs[1..])
  }

  lemma {:induction false} KeepNonBlankAppend(a: seq<string>, b: seq<string>)
    ensures KeepNonBlank(a + b) == KeepNonBlank(a) + KeepNonBlank(b)
  {
    if |a| == 0 {
      assert a + b == b;
    } else {
      var head := if a[0] != "" && !IsBlank(a[0]) then [a[0]] else [];
      var ka, kb := KeepNonBlank(a[1..]), KeepNonBlank(b);
      assert (a + b)[0] == a[0] && (a + b)[1..] == a[1..] + b;
      calc {
        KeepNonBlank(a + b);
        head + KeepNonBlank(a[1..] + b);
        { KeepNonBlankAppend(a[1..], b); }
        head + (ka + kb);
        { assert head + (ka + kb) == (head + ka) + kb; }
        KeepNonBlank(a) + kb;
      }
    }
  }

  /** Every non-blank entry is kept as often as it occurs; blank ones are all
      dropped. */
  lemma {:induction false} KeepNonBlankCounts(xs: seq<string>)
    ensures forall x :: multiset(KeepNonBlank(xs))[x] == if IsBlank(x) then 0 else multiset(xs)[x]
  {
    if |xs| > 0 {
      KeepNonBlankCounts(xs[1..]);
      assert xs == [xs[0]] + xs[1..];
      if xs[0] == "" {
        assert IsBlank(xs[0]);
      }
    }
  }

  /** A list with no blank entry is kept whole; in particular the cleanup is
      idempotent. */
  lemma {:induction false} KeepNonBlankKeepsClean(xs: seq<string>)
    requires forall i :: 0 <= i < |xs| ==> !IsBlank(xs[i])
    ensures KeepNonBlank(xs) == xs
  {
    if |xs| > 0 {
      var x, rest := xs[0], xs[1..];
      assert !IsBlank(x);
      assert x != "" by {
        EmptyIsBlank();
      }
      assert KeepNonBlank(rest) == rest by {
        KeepNonBlankKeepsClean(rest);
      }
      assert KeepNonBlank(xs) == [x] + KeepNonBlank(rest);
      assert xs == [x] + rest;
    }
  }


  /** A field cleaned for submission: the non-blank entries of an array, or
      no entries at all for anything else. */
  function CleanList(l: JsList): (r: JsList)
    ensures r.Array?
    ensures forall i :: 0 <= i < |r.items| ==> !IsBlank(r.items[i])
    ensures forall x :: multiset(r.items)[x] == if IsBlank(x) then 0 else multiset(ItemsOrEmpty(l))[x]
  {
    KeepNonBlankCounts(ItemsOrEmpty(l));
    Array(KeepNonBlank(ItemsOrEmpty(l)))
  }

  /** The data `handleSubmit` hands on: the form with `images` and `tags`
      cleaned and every other field as it is. */
  function CleanForSubmit(f: ProductForm): (r: ProductForm)
    ensures r == f.(images := r.images, tags := r.tags)
    ensures r.images.Array? && r.tags.Array?
    ensures forall i :: 0 <= i < |r.images.items| ==> !IsBlank(r.images.items[i])
    ensures forall i :: 0 <= i < |r.tags.items| ==> !IsBlank(r.tags.items[i])
    ensures forall x :: !IsBlank(x) ==> multiset(r.images.items)[x] == multiset(ItemsOrEmpty(f.images))[x]
    ensures forall x :: !IsBlank(x) ==> multiset(r.tags.items)[x] == multiset(ItemsOrEmpty(f.tags))[x]
  {
    f.(images := CleanList(f.images), tags := CleanList(f.tags))
  }

  /** Cleaning twice is cleaning once. */
  lemma CleanIdempotent(f: ProductForm)
    ensures CleanForSubmit(CleanForSubmit(f)) == CleanForSubmit(f)
  {
    var g := CleanForSubmit(f);
    KeepNonBlankKeepsClean(g.images.items);
    KeepNonBlankKeepsClean(g.tags.items);
  }

  /** An image field added and left empty is not submitted. */
  lemma AddedImageFieldIsDropped(f: ProductForm)
    ensures CleanForSubmit(AddImageField(f)) == CleanForSubmit(f)
  {
    var xs := ItemsOrEmpty(f.images);
    KeepNonBlankAppend(xs, [""]);
    assert KeepNonBlank([""]) == [];
  }

  /** Overwriting an entry with a blank string filters like deleting it. */
  lemma BlankReplaceFiltersLikeRemove(xs: seq<string>, index: int, value: string)
    requires 0 <= index < |xs| && IsBlank(value)
    ensures KeepNonBlank(xs[index := value]) == KeepNonBlank(xs[..index] + xs[index + 1..])
  {
    var pre, post := xs[..index], xs[index + 1..];
    assert xs[index := value] == (pre + [value]) + post;
    KeepNonBlankAppend(pre + [value], post);
    KeepNonBlankAppend(pre, [value]);
    KeepNonBlankAppend(pre, post);
    assert KeepNonBlank([value]) == [];
    assert KeepNonBlank(pre) + [] == KeepNonBlank(pre);
  }

  /** Blanking an image entry submits the same images as removing it. */
  lemma BlankedImageIsRemoved(f: ProductForm, index: int, value: string)
    requires IsBlank(value)
    ensures CleanForSubmit(UpdateImageField(f, index, value)).images
         == CleanForSubmit(RemoveImageField(f, index)).images
  {
    var updated := UpdateImageField(f, index, value).images.items;
    var removed := RemoveImageField(f, index).images.items;
    assert KeepNonBlank(updated) == KeepNonBlank(removed) by {
      if f.images.Array? && 0 <= index < |f.images.items| {
        assert updated == f.images.items[index := value];
        BlankReplaceFiltersLikeRemove(f.images.items, index, value);
      } else if f.images.Array? {
        assert updated == f.images.items;
      } else {
        assert KeepNonBlank([value]) == [];
      }
    }
    SameCleanImages(UpdateImageField(f, index, value), RemoveImageField(f, index));
  }

  /** Two array image lists with the same non-blank entries submit the same images. */
  lemma SameCleanImages(g: ProductForm, h: ProductForm)
    requires g.images.Array? && h.images.Array?
    requires KeepNonBlank(g.images.items) == KeepNonBlank(h.images.items)
    ensures CleanForSubmit(g).images == CleanForSubmit(h).images
  {
  }

  /** A tag accepted by `addTag` is submitted, after the surviving earlier tags. */
  lemma AddedTagIsSubmitted(f: ProductForm, input: string)
    requires !IsBlank(input)
    ensures CleanForSubmit(AddTag(f, Some(input)).form).tags.items
         == KeepNonBlank(ItemsOrEmpty(f.tags)) + [Trim(input)]
  {
    var tag := Trim(input);
    assert KeepNonBlank([tag]) == [tag] by {
      TrimIdempotent(input);
      BlankIffTrimEmpty(input);
      BlankIffTrimEmpty(tag);
      EmptyIsBlank();
      assert !IsBlank(tag) && tag != "";
    }
    assert AddTag(f, Some(input)).form.tags.items == ItemsOrEmpty(f.tags) + [tag];
    KeepNonBlankAppend(ItemsOrEmpty(f.tags), [tag]);
  }
}
