/**
 * `/api/food-items` (`src/app/api/food-items/route.js`): GET one item or a filtered list,
 * POST with name/price/category validation and defaults, PUT of the fields present, DELETE.
 */
module FoodItemsApi {
  import opened JsLib
  import opened Schema
  import opened Sorting
  import opened Store

  function CreatedAt(f: FoodItem): string { f.createdAt }

  /** `ORDER BY created_at DESC`. */
  function NewestFirst(): (FoodItem, FoodItem) -> bool { DescStr(CreatedAt) }

  /**
   * The list filters: `search` (LIKE on the name) and `category` (equality) when given;
   * `available` whenever the key is present at all, where only the text "true" means true.
   */
  predicate Matches(params: Params, f: FoodItem) {
    var search, category, available := Param(params, "search"), Param(params, "category"), Param(params, "available");
    && (!Given(search) || Like(f.name, search.value))
    && (!Given(category) || f.category == category.value)
    && (available.None? || f.available == (available.value == "true"))
  }

  predicate ListParamsOk(params: Params) {
    NumericOrAbsent(Param(params, "limit")) && NumericOrAbsent(Param(params, "offset"))
  }

  function Matching(rows: seq<FoodItem>, params: Params): seq<FoodItem> {
    Filter(rows, (f: FoodItem) => Matches(params, f))
  }

  function List(rows: seq<FoodItem>, params: Params): seq<FoodItem>
    requires ListParamsOk(params)
  {
    Page(SortBy(Matching(rows, params), NewestFirst()),
         ListLimit(Param(params, "limit")), ListOffset(Param(params, "offset")))
  }

  const NotFound := "Food item not found"

  function Get(items: Table<FoodItem>, params: Params): Response<Listing<FoodItem, FoodItem>>
    requires Given(Param(params, "id")) || ListParamsOk(params)
  {
    var id := Param(params, "id");
    if Given(id) then
      match ParseInt(id.value)
      case None => Err(400, "INVALID_ID", "Valid ID is required")
      case Some(n) =>
        match Lookup(items, FoodItemId, n)
        case None => Err(404, "NOT_FOUND", NotFound)
        case Some(f) => Ok(200, One(f))
    else Ok(200, Many(List(items.rows, params)))
  }

  /** GET by id answers the item with that id, a 404 for an unknown id, a 400 for an unreadable one. */
  lemma GetById(items: Table<FoodItem>, params: Params)
    requires Given(Param(params, "id"))
    ensures var r := Get(items, params);
      var p := ParseInt(params["id"]);
      && (p.None? <==> r == Err(400, "INVALID_ID", "Valid ID is required"))
      && (p.Some? && Lookup(items, FoodItemId, p.value).None? <==> r == Err(404, "NOT_FOUND", NotFound))
      && (r.Ok? ==> r.body.One? && r.body.row in items.rows && r.body.row.id == p.value)
  {
  }

  /**
   * A list page: each item from the table and matching the filters, newest first, and no more
   * than a non-negative page size (at most 100). `?available=` with any text other than "true"
   * selects the unavailable items.
   */
  lemma ListSpec(rows: seq<FoodItem>, params: Params)
    requires ListParamsOk(params)
    ensures var r := List(rows, params);
      && (0 <= ListLimit(Param(params, "limit")) ==> |r| <= ListLimit(Param(params, "limit")) <= 100)
      && (forall x :: x in r ==> x in rows && Matches(params, x))
      && Sorted(r, NewestFirst())
    ensures "available" in params && params["available"] != "true" ==>
      forall x :: x in List(rows, params) ==> !x.available
  {
    var matching := Matching(rows, params);
    var sorted := SortBy(matching, NewestFirst());
    var limit, offset := ListLimit(Param(params, "limit")), ListOffset(Param(params, "offset"));
    DescStrTotal(CreatedAt);
    SortBySorted(matching, NewestFirst());
    SortedSlice(sorted, PageStart(|sorted|, offset), PageEnd(|sorted|, limit, offset), NewestFirst());
    PageOfFiltered(rows, (f: FoodItem) => Matches(params, f), sorted, limit, offset);
  }

  /**
   * The first page, when it has room, holds every matching item. A negative `limit` always
   * has room: `Math.min` keeps it and SQLite reads it as no limit.
   */
  lemma ListComplete(rows: seq<FoodItem>, params: Params)
    requires ListParamsOk(params)
    requires ListOffset(Param(params, "offset")) <= 0
    requires ListLimit(Param(params, "limit")) < 0 || |Matching(rows, params)| <= ListLimit(Param(params, "limit"))
    ensures multiset(List(rows, params)) == multiset(Matching(rows, params))
  {
    var sorted := SortBy(Matching(rows, params), NewestFirst());
    PageAll(sorted, ListLimit(Param(params, "limit")), ListOffset(Param(params, "offset")));
  }

  // ---------------------------------------------------------------------------
  // POST

  /** `!v || v.trim() === ''` as a check on a required text field; a truthy non-string throws. */
  function RequiredText(v: JsValue): (r: Result<Option<string>>)
    ensures r == Success(None) <==> !Truthy(v) || (v.Str? && Trim(v.s) == "")
    ensures r.Success? && r.value.Some? ==> v.Str? && r.value.value == Trim(v.s) && r.value.value != ""
    ensures r.Failure? <==> Truthy(v) && !v.Str?
  {
    if !Truthy(v) then Success(None)
    else if !v.Str? then Failure(TrimNotAFunction)
    else if Trim(v.s) == "" then Success(None)
    else Success(Some(Trim(v.s)))
  }

  /** `!price && price !== 0`: absent, null, false, "" (0 is allowed through). */
  predicate PriceMissing(price: JsValue) { !Truthy(price) && price != Num(0) }

  /** `typeof price !== 'number' || price < 0`. */
  predicate PriceInvalid(price: JsValue) { !price.Num? || price.n < 0 }

  /** The stored `available`: `true` when the key is absent, null breaks NOT NULL, else truthiness. */
  function AvailableOnInsert(v: JsValue): (r: Result<bool>)
    ensures v.Undefined? ==> r == Success(true)
    ensures r.Failure? <==> v.Null?
  {
    if v.Undefined? then Success(true)
    else if v.Null? then Failure(NotNullFailed)
    else Success(Truthy(v))
  }

  /** The optional columns of an insert: trimmed text or null, and `available`. */
  datatype Optional = Optional(description: Option<string>, imageUrl: Option<string>, available: bool)

  /** Sanitizing the optional fields: a falsy text stores null, an absent `available` stores true. */
  function Optionals(body: map<string, JsValue>): (r: Result<Optional>)
    ensures r.Success? ==> (r.value.description.None? <==> !Truthy(Field(body, "description")))
    ensures r.Success? ==> (r.value.imageUrl.None? <==> !Truthy(Field(body, "imageUrl")))
    ensures r.Success? && Field(body, "available").Undefined? ==> r.value.available
    ensures r.Failure? <==> (Truthy(Field(body, "description")) && !Field(body, "description").Str?)
                            || (Truthy(Field(body, "imageUrl")) && !Field(body, "imageUrl").Str?)
                            || Field(body, "available").Null?
  {
    match OptionalText(Field(body, "description"))
    case Failure(why) => Failure(why)
    case Success(description) =>
      match OptionalText(Field(body, "imageUrl"))
      case Failure(why) => Failure(why)
      case Success(imageUrl) =>
        match AvailableOnInsert(Field(body, "available"))
        case Failure(why) => Failure(why)
        case Success(available) => Success(Optional(description, imageUrl, available))
  }

  function Post(items: Table<FoodItem>, body: map<string, JsValue>, now: string): (Response<FoodItem>, Table<FoodItem>)
  {
    var price := Field(body, "price");
    match RequiredText(Field(body, "name"))
    case Failure(why) => (InternalError(why), items)
    case Success(name) =>
      if name.None? then (Err(400, "MISSING_NAME", "Name is required"), items)
      else if PriceMissing(price) then (Err(400, "MISSING_PRICE", "Price is required"), items)
      else if PriceInvalid(price) then (Err(400, "INVALID_PRICE", "Price must be a non-negative number"), items)
      else
        match RequiredText(Field(body, "category"))
        case Failure(why) => (InternalError(why), items)
        case Success(category) =>
          if category.None? then (Err(400, "MISSING_CATEGORY", "Category is required"), items)
          else
            match Optionals(body)
            case Failure(why) => (InternalError(why), items)
            case Success(o) =>
              var row := FoodItem(items.nextId, name.value, o.description, price.n, category.value,
                                  o.imageUrl, o.available, now);
              (Ok(201, row), Store.Insert(items, row))
  }

  /**
   * A created item has a non-blank trimmed name and category, a non-negative price, null for
   * a falsy description or image, and is available unless the body says otherwise; it is
   * appended with the next id. On any error the table is unchanged.
   */
  lemma PostCreates(items: Table<FoodItem>, body: map<string, JsValue>, now: string)
    ensures var (r, after) := Post(items, body, now);
      && (r.Err? ==> after == items)
      && (r.Ok? ==>
            (&& r.status == 201 && after == Store.Insert(items, r.body) && r.body.id == items.nextId
             && r.body.name == Trim(Field(body, "name").s) && r.body.name != ""
             && r.body.category == Trim(Field(body, "category").s) && r.body.category != ""
             && r.body.price >= 0 && Field(body, "price") == Num(r.body.price)
             && (r.body.description.None? <==> !Truthy(Field(body, "description")))
             && (r.body.imageUrl.None? <==> !Truthy(Field(body, "imageUrl")))
             && (Field(body, "available").Undefined? ==> r.body.available)
             && r.body.createdAt == now))
  {
    var price := Field(body, "price");
    match RequiredText(Field(body, "name"))
    case Failure(_) =>
    case Success(name) =>
      if name.Some? && !PriceMissing(price) && !PriceInvalid(price) {
        match RequiredText(Field(body, "category"))
        case Failure(_) =>
        case Success(category) =>
          if category.Some? {
            match Optionals(body)
            case Failure(_) =>
            case Success(o) =>
              var row := FoodItem(items.nextId, name.value, o.description, price.n, category.value,
                                  o.imageUrl, o.available, now);
              assert Post(items, body, now) == (Ok(201, row), Store.Insert(items, row));
          }
      }
  }

  /**
   * The checks run in order: name, then price (missing before invalid), then category. A price
   * of 0 passes both price checks; a negative one is refused.
   */
  lemma PostValidation(items: Table<FoodItem>, body: map<string, JsValue>, now: string)
    ensures var r := Post(items, body, now).0;
      var name := Field(body, "name");
      && (!Truthy(name) ==> r == Err(400, "MISSING_NAME", "Name is required"))
      && (name.Str? && Trim(name.s) != "" ==>
            (&& (PriceMissing(Field(body, "price")) <==> r == Err(400, "MISSING_PRICE", "Price is required"))
             && (Field(body, "price") == Num(0) ==> r.Ok? || r.status != 400 || r.code == "MISSING_CATEGORY")
             && (Field(body, "price").Num? && Field(body, "price").n < 0 ==>
                   r == Err(400, "INVALID_PRICE", "Price must be a non-negative number"))))
  {
    var name := Field(body, "name");
    var r := Post(items, body, now).0;
    if !Truthy(name) {
      assert RequiredText(name) == Success(None);
      assert r == Err(400, "MISSING_NAME", "Name is required");
    } else if name.Str? && Trim(name.s) != "" {
      assert RequiredText(name) == Success(Some(Trim(name.s)));
      var price := Field(body, "price");
      if PriceMissing(price) {
        assert r == Err(400, "MISSING_PRICE", "Price is required");
      } else if PriceInvalid(price) {
        assert r == Err(400, "INVALID_PRICE", "Price must be a non-negative number");
      } else {
        match RequiredText(Field(body, "category"))
        case Failure(why) =>
          assert r == InternalError(why);
        case Success(category) =>
          if category.None? {
            assert r == Err(400, "MISSING_CATEGORY", "Category is required");
          } else {
            match Optionals(body)
            case Failure(why) =>
              assert r == InternalError(why);
            case Success(o) =>
              assert r.Ok?;
          }
      }
    }
  }

  // ---------------------------------------------------------------------------
  // PUT

  /** The `updates` object: `None` for a key left out; `Some(None)` on a nullable column is null. */
  datatype Patch = Patch(
    name: Option<string>, description: Option<Option<string>>, price: Option<int>,
    category: Option<string>, imageUrl: Option<Option<string>>, available: Option<Option<bool>>)

  predicate EmptyPatch(p: Patch) {
    p.name.None? && p.description.None? && p.price.None? && p.category.None?
    && p.imageUrl.None? && p.available.None?
  }

  function Pick<T>(o: Option<T>, keep: T): T { if o.Some? then o.value else keep }

  /** The row after the update: the keys in the patch replace their columns. */
  function Apply(f: FoodItem, p: Patch): FoodItem
    requires p.available != Some(None)
  {
    f.(name := Pick(p.name, f.name), description := Pick(p.description, f.description),
       price := Pick(p.price, f.price), category := Pick(p.category, f.category),
       imageUrl := Pick(p.imageUrl, f.imageUrl),
       available := if p.available.Some? then p.available.value.value else f.available)
  }

  /** `if (key !== undefined) { if (v.trim() === '') 400 … }` for a text column that may not be blank. */
  function NonBlankUpdate(v: JsValue, code: string, message: string): (r: Step<Option<string>, FoodItem>)
    ensures v.Undefined? ==> r == Next(None)
    ensures v.Str? && Trim(v.s) == "" ==> r == Stop(Err(400, code, message))
    ensures v.Str? && Trim(v.s) != "" ==> r == Next(Some(Trim(v.s)))
    ensures !v.Undefined? && !v.Str? ==> r.Stop? && r.response.status == 500
    ensures r.Stop? ==> r.response.Err?
  {
    if v.Undefined? then Next(None)
    else if !v.Str? then Stop(InternalError(TrimNotAFunction))
    else if Trim(v.s) == "" then Stop(Err(400, code, message))
    else Next(Some(Trim(v.s)))
  }

  /** `if (key !== undefined) updates.key = v ? v.trim() : null`. */
  function NullableUpdate(v: JsValue): (r: Step<Option<Option<string>>, FoodItem>)
    ensures r.Next? ==> (r.value.None? <==> v.Undefined?)
    ensures r.Next? && r.value.Some? ==> (r.value.value.None? <==> !Truthy(v))
    ensures v.Str? && v.s != "" ==> r == Next(Some(Some(Trim(v.s))))
    ensures r.Stop? <==> Truthy(v) && !v.Str?
    ensures r.Stop? ==> r.response.Err?
  {
    if v.Undefined? then Next(None)
    else match OptionalText(v)
      case Failure(why) => Stop(InternalError(why))
      case Success(t) => Next(Some(t))
  }

  function PatchOf(body: map<string, JsValue>): (r: Step<Patch, FoodItem>)
    ensures r.Stop? ==> r.response.Err?
  {
    var price, available := Field(body, "price"), Field(body, "available");
    match NonBlankUpdate(Field(body, "name"), "INVALID_NAME", "Name cannot be empty")
    case Stop(r) => Stop(r)
    case Next(name) =>
      match NullableUpdate(Field(body, "description"))
      case Stop(r) => Stop(r)
      case Next(description) =>
        match NonBlankUpdate(Field(body, "category"), "INVALID_CATEGORY", "Category cannot be empty")
        case Stop(r) => Stop(r)
        case Next(category) =>
          match NullableUpdate(Field(body, "imageUrl"))
          case Stop(r) => Stop(r)
          case Next(imageUrl) =>
            Next(Patch(name, description, if price.Num? then Some(price.n) else None, category, imageUrl,
                       if available.Undefined? then None
                       else if available.Null? then Some(None) else Some(Some(Truthy(available)))))
  }

  function Put(items: Table<FoodItem>, params: Params, body: map<string, JsValue>): (Response<FoodItem>, Table<FoodItem>)
  {
    var price := Field(body, "price");
    match IdParam(Param(params, "id"))
    case None => (Err(400, "INVALID_ID", "Valid ID is required"), items)
    case Some(n) =>
      match Lookup(items, FoodItemId, n)
      case None => (Err(404, "NOT_FOUND", NotFound), items)
      case Some(f) =>
        if !price.Undefined? && PriceInvalid(price) then
          (Err(400, "INVALID_PRICE", "Price must be a non-negative number"), items)
        else Patched(items, n, f, PatchOf(body))
  }

  /** The update itself, once the route has built the patch (or stopped building it). */
  function Patched(items: Table<FoodItem>, n: int, f: FoodItem, patch: Step<Patch, FoodItem>): (Response<FoodItem>, Table<FoodItem>)
  {
    match patch
    case Stop(r) => (r, items)
    case Next(p) =>
      if EmptyPatch(p) then (InternalError(NoValuesToSet), items)
      else if p.available == Some(None) then (InternalError(NotNullFailed), items)
      else (Ok(200, Apply(f, p)), Replace(items, FoodItemId, n, Apply(f, p)))
  }

  /**
   * How a successful PUT relates the stored row to the body: id and `createdAt` kept, a column
   * whose key is absent kept, name and category trimmed and not blank, description and image
   * trimmed or null (null exactly when falsy), price as given and not negative.
   */
  predicate UpdatedFrom(before: FoodItem, after: FoodItem, body: map<string, JsValue>) {
    var name, category, price := Field(body, "name"), Field(body, "category"), Field(body, "price");
    && after.id == before.id && after.createdAt == before.createdAt
    && (name.Undefined? ==> after.name == before.name)
    && (!name.Undefined? ==> name.Str? && after.name == Trim(name.s) && after.name != "")
    && (category.Undefined? ==> after.category == before.category)
    && (!category.Undefined? ==> category.Str? && after.category == Trim(category.s) && after.category != "")
    && (price.Undefined? ==> after.price == before.price)
    && (!price.Undefined? ==> price == Num(after.price) && after.price >= 0)
    && (Field(body, "description").Undefined? ==> after.description == before.description)
    && (!Field(body, "description").Undefined? ==> (after.description.None? <==> !Truthy(Field(body, "description"))))
    && (Truthy(Field(body, "description")) ==> Field(body, "description").Str? && after.description == Some(Trim(Field(body, "description").s)))
    && (Field(body, "imageUrl").Undefined? ==> after.imageUrl == before.imageUrl)
    && (!Field(body, "imageUrl").Undefined? ==> (after.imageUrl.None? <==> !Truthy(Field(body, "imageUrl"))))
    && (Truthy(Field(body, "imageUrl")) ==> Field(body, "imageUrl").Str? && after.imageUrl == Some(Trim(Field(body, "imageUrl").s)))
    && (Field(body, "available").Undefined? ==> after.available == before.available)
    && (!Field(body, "available").Undefined? ==> after.available == Truthy(Field(body, "available")))
  }

  /** The patch carries exactly the keys present in the body, read as the route reads them. */
  lemma PatchOfSpec(body: map<string, JsValue>)
    ensures PatchOf(body).Next? ==>
      var p := PatchOf(body).value;
      var name, category := Field(body, "name"), Field(body, "category");
      && (name.Undefined? <==> p.name.None?)
      && (p.name.Some? ==> name.Str? && p.name.value == Trim(name.s) && p.name.value != "")
      && (category.Undefined? <==> p.category.None?)
      && (p.category.Some? ==> category.Str? && p.category.value == Trim(category.s) && p.category.value != "")
      && (Field(body, "description").Undefined? <==> p.description.None?)
      && (p.description.Some? ==> (p.description.value.None? <==> !Truthy(Field(body, "description"))))
      && (p.description.Some? && Truthy(Field(body, "description")) ==>
            Field(body, "description").Str? && p.description.value == Some(Trim(Field(body, "description").s)))
      && (Field(body, "imageUrl").Undefined? <==> p.imageUrl.None?)
      && (p.imageUrl.Some? ==> (p.imageUrl.value.None? <==> !Truthy(Field(body, "imageUrl"))))
      && (p.imageUrl.Some? && Truthy(Field(body, "imageUrl")) ==>
            Field(body, "imageUrl").Str? && p.imageUrl.value == Some(Trim(Field(body, "imageUrl").s)))
      && (Field(body, "price").Num? ==> p.price == Some(Field(body, "price").n))
      && (!Field(body, "price").Num? ==> p.price.None?)
      && (Field(body, "available").Undefined? <==> p.available.None?)
      && (Field(body, "available").Null? <==> p.available == Some(None))
      && (p.available.Some? && p.available.value.Some? ==> p.available.value.value == Truthy(Field(body, "available")))
  {
    match NonBlankUpdate(Field(body, "name"), "INVALID_NAME", "Name cannot be empty")
    case Stop(_) =>
    case Next(name) =>
      match NullableUpdate(Field(body, "description"))
      case Stop(_) =>
      case Next(description) =>
        match NonBlankUpdate(Field(body, "category"), "INVALID_CATEGORY", "Category cannot be empty")
        case Stop(_) =>
        case Next(category) =>
          match NullableUpdate(Field(body, "imageUrl"))
          case Stop(_) =>
          case Next(imageUrl) =>
            var p := PatchOf(body).value;
            assert p.name == name && p.description == description;
            assert p.category == category && p.imageUrl == imageUrl;
  }

  /** A successful PUT replaces only the named row, with a row `UpdatedFrom` the old one. */
  lemma PutUpdates(items: Table<FoodItem>, params: Params, body: map<string, JsValue>)
    ensures var (r, after) := Put(items, params, body);
      && (r.Err? ==> after == items)
      && (r.Ok? ==>
          var n := IdParam(Param(params, "id")).value;
          (&& Lookup(items, FoodItemId, n).Some?
           && after == Replace(items, FoodItemId, n, r.body)
           && UpdatedFrom(Lookup(items, FoodItemId, n).value, r.body, body)))
  {
    match IdParam(Param(params, "id"))
    case None =>
    case Some(n) =>
      match Lookup(items, FoodItemId, n)
      case None =>
      case Some(f) =>
        var price := Field(body, "price");
        if price.Undefined? || !PriceInvalid(price) {
          assert Put(items, params, body) == Patched(items, n, f, PatchOf(body));
          PatchedSpec(items, n, f, PatchOf(body));
          if Put(items, params, body).0.Ok? {
            ApplyUpdatedFrom(f, body);
          }
        }
  }

  /** The update answers with the patched row and replaces it, or changes nothing. */
  lemma PatchedSpec(items: Table<FoodItem>, n: int, f: FoodItem, patch: Step<Patch, FoodItem>)
    requires patch.Stop? ==> patch.response.Err?
    ensures var (r, after) := Patched(items, n, f, patch);
      && (r.Err? ==> after == items)
      && (r.Ok? ==>
            && patch.Next? && patch.value.available != Some(None)
            && r.body == Apply(f, patch.value)
            && after == Replace(items, FoodItemId, n, r.body))
  {
  }

  lemma ApplyUpdatedFrom(f: FoodItem, body: map<string, JsValue>)
    requires PatchOf(body).Next? && PatchOf(body).value.available != Some(None)
    requires Field(body, "price").Undefined? || !PriceInvalid(Field(body, "price"))
    ensures UpdatedFrom(f, Apply(f, PatchOf(body).value), body)
  {
    ApplyRequiredColumns(f, body);
    ApplyNullableColumns(f, body);
  }

  /** The id, `createdAt`, name, category and price parts of `UpdatedFrom`. */
  lemma ApplyRequiredColumns(f: FoodItem, body: map<string, JsValue>)
    requires PatchOf(body).Next? && PatchOf(body).value.available != Some(None)
    requires Field(body, "price").Undefined? || !PriceInvalid(Field(body, "price"))
    ensures var g, name, category, price := Apply(f, PatchOf(body).value), Field(body, "name"), Field(body, "category"), Field(body, "price");
      && g.id == f.id && g.createdAt == f.createdAt
      && (name.Undefined? ==> g.name == f.name)
      && (!name.Undefined? ==> name.Str? && g.name == Trim(name.s) && g.name != "")
      && (category.Undefined? ==> g.category == f.category)
      && (!category.Undefined? ==> category.Str? && g.category == Trim(category.s) && g.category != "")
      && (price.Undefined? ==> g.price == f.price)
      && (!price.Undefined? ==> price == Num(g.price) && g.price >= 0)
  {
    PatchOfSpec(body);
    var p := PatchOf(body).value;
    var g := Apply(f, p);
    assert g.name == Pick(p.name, f.name) && g.category == Pick(p.category, f.category);
    assert g.price == Pick(p.price, f.price);
  }

  /** The description, image and availability parts of `UpdatedFrom`. */
  lemma ApplyNullableColumns(f: FoodItem, body: map<string, JsValue>)
    requires PatchOf(body).Next? && PatchOf(body).value.available != Some(None)
    ensures var g, d, i, a := Apply(f, PatchOf(body).value), Field(body, "description"), Field(body, "imageUrl"), Field(body, "available");
      && (d.Undefined? ==> g.description == f.description)
      && (!d.Undefined? ==> (g.description.None? <==> !Truthy(d)))
      && (Truthy(d) ==> d.Str? && g.description == Some(Trim(d.s)))
      && (i.Undefined? ==> g.imageUrl == f.imageUrl)
      && (!i.Undefined? ==> (g.imageUrl.None? <==> !Truthy(i)))
      && (Truthy(i) ==> i.Str? && g.imageUrl == Some(Trim(i.s)))
      && (a.Undefined? ==> g.available == f.available)
      && (!a.Undefined? ==> g.available == Truthy(a))
  {
    PatchOfSpec(body);
    var p := PatchOf(body).value;
    var g := Apply(f, p);
    assert g.description == Pick(p.description, f.description) && g.imageUrl == Pick(p.imageUrl, f.imageUrl);
    assert g.available == if p.available.Some? then p.available.value.value else f.available;
  }

  /**
   * Existence is checked before the price, and the price before any other field: a bad price
   * on a known item is a 400 whatever else the body holds, and a blank name or category is
   * refused with its own 400.
   */
  lemma PutValidation(items: Table<FoodItem>, params: Params, body: map<string, JsValue>)
    requires IdParam(Param(params, "id")).Some?
    requires Lookup(items, FoodItemId, IdParam(Param(params, "id")).value).Some?
    ensures var price := Field(body, "price");
      !price.Undefined? && PriceInvalid(price) ==>
        Put(items, params, body) == (Err(400, "INVALID_PRICE", "Price must be a non-negative number"), items)
    ensures var price, name := Field(body, "price"), Field(body, "name");
      (price.Undefined? || !PriceInvalid(price)) && name.Str? && Trim(name.s) == "" ==>
        Put(items, params, body) == (Err(400, "INVALID_NAME", "Name cannot be empty"), items)
  {
    var n := IdParam(Param(params, "id")).value;
    var f := Lookup(items, FoodItemId, n).value;
    var price, name := Field(body, "price"), Field(body, "name");
    if !price.Undefined? && PriceInvalid(price) {
      assert Put(items, params, body) == (Err(400, "INVALID_PRICE", "Price must be a non-negative number"), items);
    } else {
      assert Put(items, params, body) == Patched(items, n, f, PatchOf(body));
      if name.Str? && Trim(name.s) == "" {
        var invalid := Err(400, "INVALID_NAME", "Name cannot be empty");
        assert NonBlankUpdate(name, "INVALID_NAME", "Name cannot be empty") == Stop(invalid);
        assert PatchOf(body) == Stop(invalid);
      }
    }
  }

  // ---------------------------------------------------------------------------
  // DELETE

  const ItemNotFound: Response<Deletion<FoodItem>> := Err(404, "NOT_FOUND", NotFound)

  function Delete(items: Table<FoodItem>, params: Params): (Response<Deletion<FoodItem>>, Table<FoodItem>)
  {
    DeleteById(items, FoodItemId, params, ItemNotFound, "Food item deleted successfully")
  }

  // ---------------------------------------------------------------------------
  // Handlers

  method PostHandler(db: Db, body: map<string, JsValue>, now: string) returns (r: Response<FoodItem>)
    modifies db`foodItems
    ensures (r, db.foodItems) == Post(old(db.foodItems), body, now)
  {
    var name := RequiredText(Field(body, "name"));
    if name.Failure? { return InternalError(name.reason); }
    if name.value.None? { return Err(400, "MISSING_NAME", "Name is required"); }
    var price := Field(body, "price");
    if PriceMissing(price) { return Err(400, "MISSING_PRICE", "Price is required"); }
    if PriceInvalid(price) { return Err(400, "INVALID_PRICE", "Price must be a non-negative number"); }
    var category := RequiredText(Field(body, "category"));
    if category.Failure? { return InternalError(category.reason); }
    if category.value.None? { return Err(400, "MISSING_CATEGORY", "Category is required"); }
    var optional := Optionals(body);
    if optional.Failure? { return InternalError(optional.reason); }
    var row := FoodItem(db.foodItems.nextId, name.value.value, optional.value.description, price.n,
                        category.value.value, optional.value.imageUrl, optional.value.available, now);
    db.foodItems := Store.Insert(db.foodItems, row);
    r := Ok(201, row);
  }

  /** PUT as the route runs it: id, existence, price, then the `updates` object key by key. */
  method PutHandler(db: Db, params: Params, body: map<string, JsValue>) returns (r: Response<FoodItem>)
    modifies db`foodItems
    ensures (r, db.foodItems) == Put(old(db.foodItems), params, body)
  {
    var n := IdParam(Param(params, "id"));
    if n.None? { return Err(400, "INVALID_ID", "Valid ID is required"); }
    var existing := Lookup(db.foodItems, FoodItemId, n.value);
    if existing.None? { return Err(404, "NOT_FOUND", NotFound); }
    var price := Field(body, "price");
    if !price.Undefined? && PriceInvalid(price) {
      return Err(400, "INVALID_PRICE", "Price must be a non-negative number");
    }
    var updates := Patch(None, None, None, None, None, None);
    var name := NonBlankUpdate(Field(body, "name"), "INVALID_NAME", "Name cannot be empty");
    if name.Stop? { return name.response; }
    updates := updates.(name := name.value);
    var description := NullableUpdate(Field(body, "description"));
    if description.Stop? { return description.response; }
    updates := updates.(description := description.value);
    if price.Num? {
      updates := updates.(price := Some(price.n));
    }
    var category := NonBlankUpdate(Field(body, "category"), "INVALID_CATEGORY", "Category cannot be empty");
    if category.Stop? { return category.response; }
    updates := updates.(category := category.value);
    var imageUrl := NullableUpdate(Field(body, "imageUrl"));
    if imageUrl.Stop? { return imageUrl.response; }
    updates := updates.(imageUrl := imageUrl.value);
    var available := Field(body, "available");
    if !available.Undefined? {
      updates := updates.(available := if available.Null? then Some(None) else Some(Some(Truthy(available))));
    }
    if EmptyPatch(updates) { return InternalError(NoValuesToSet); }
    if updates.available == Some(None) { return InternalError(NotNullFailed); }
    var row := Apply(existing.value, updates);
    db.foodItems := Replace(db.foodItems, FoodItemId, n.value, row);
    r := Ok(200, row);
  }

  method DeleteHandler(db: Db, params: Params) returns (r: Response<Deletion<FoodItem>>)
    modifies db`foodItems
    ensures (r, db.foodItems) == Delete(old(db.foodItems), params)
  {
    var n := IdParam(Param(params, "id"));
    if n.None? { return Err(400, "INVALID_ID", "Valid ID is required"); }
    var existing := Lookup(db.foodItems, FoodItemId, n.value);
    if existing.None? { return ItemNotFound; }
    db.foodItems := Remove(db.foodItems, FoodItemId, n.value);
    r := Ok(200, Deletion("Food item deleted successfully", existing.value));
  }
}
