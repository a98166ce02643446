/**
 * `routes/product.js`: list and get (with the category populated), create from a
 * multipart form with an uploaded image, the partial update, and delete.
 */
module ProductRoutes {
  import opened Base
  import opened Js
  import opened Joi
  import opened Mongo
  import opened CategoryModel
  import opened ProductModel
  import opened Database

  /** `tags.split(",").map((tag) => tag.trim())`: the comma-separated pieces, each trimmed, in order. */
  function SplitTags(s: string): (tags: seq<string>)
    ensures |tags| == Occurrences(s, ',') + 1
    ensures forall i :: 0 <= i < |tags| ==> tags[i] == Trim(Split(s, ',')[i])
  {
    var pieces := Split(s, ',');
    seq(|pieces|, i requires 0 <= i < |pieces| => Trim(pieces[i]))
  }

  /**
   * Splitting is the inverse of writing the tags comma-separated: tags without commas and
   * without white space at their ends come back unchanged and in order.
   */
  lemma SplitTagsOfJoined(tags: seq<string>)
    requires |tags| > 0
    requires forall i :: 0 <= i < |tags| ==> ',' !in tags[i]
    requires forall i :: 0 <= i < |tags| ==> tags[i] == [] || (!IsSpace(tags[i][0]) && !IsSpace(tags[i][|tags[i]| - 1]))
    ensures SplitTags(Join(tags, ',')) == tags
  {
    SplitJoin(tags, ',');
    forall i | 0 <= i < |tags| ensures Trim(tags[i]) == tags[i] {
      TrimOfTrimmed(tags[i]);
    }
  }

  /** The body after `if (typeof req.body.tags === "string") req.body.tags = <its split>`. */
  function NormalizeTags(body: Body): (b: Body)
    ensures Get(body, "tags").Str? ==> Get(b, "tags") == Arr(TextValues(SplitTags(Get(body, "tags").s)))
    ensures !Get(body, "tags").Str? ==> b == body
    ensures forall k :: k != "tags" ==> Get(b, k) == Get(body, k)
    ensures b.Keys == body.Keys
  {
    var tags := Get(body, "tags");
    if tags.Str? then body["tags" := Arr(TextValues(SplitTags(tags.s)))] else body
  }

  /** The texts as an array of string values. */
  function TextValues(texts: seq<string>): (vs: seq<JsValue>)
    ensures |vs| == |texts| && forall i :: 0 <= i < |vs| ==> vs[i] == Str(texts[i])
    ensures TextsOf(Arr(vs)) == texts
  {
    seq(|texts|, i requires 0 <= i < |texts| => Str(texts[i]))
  }

  /** A product with its `category` populated: the referenced category, or none when it no longer exists. */
  datatype ProductView = ProductView(product: Product, category: Option<Category>)

  function Populate(p: Product, categories: seq<Category>): (v: ProductView)
    ensures v.product == p
    ensures v.category.Some? <==> exists c :: c in categories && c.id == p.category
    ensures v.category.Some? ==> v.category.value in categories && v.category.value.id == p.category
  {
    match Find(categories, CategoryId, p.category)
    case None => ProductView(p, None)
    case Some(i) => ProductView(p, Some(categories[i]))
  }

  /** `GET /`: every product, in stored order, each with its category. */
  function ListProducts(products: seq<Product>, categories: seq<Category>): (r: seq<ProductView>)
    ensures |r| == |products|
    ensures forall i :: 0 <= i < |r| ==> r[i] == Populate(products[i], categories)
  {
    seq(|products|, i requires 0 <= i < |products| => Populate(products[i], categories))
  }

  /** `GET /:productId`. */
  function GetProduct(products: seq<Product>, categories: seq<Category>, productId: string): (r: Reply<ProductView>)
    ensures CastId(productId).None? ==> r == Fail(500, "Internal server error")
    ensures r == Fail(404, "Product not found") <==>
      CastId(productId).Some? && forall p :: p in products ==> p.id != CastId(productId).value
    ensures r.Ok? <==> CastId(productId).Some? && exists p :: p in products && p.id == CastId(productId).value
    ensures r.Ok? ==> (r.data.product in products && Some(r.data.product.id) == CastId(productId)
      && r.data == Populate(r.data.product, categories))
  {
    match CastId(productId)
    case None => Fail(500, "Internal server error")
    case Some(id) =>
      match Find(products, ProductId, id)
      case None => Fail(404, "Product not found")
      case Some(i) => Ok(Populate(products[i], categories))
  }

  /** Fetching a stored product by its id returns that product, populated. */
  lemma GetStoredProduct(products: seq<Product>, categories: seq<Category>, i: nat)
    requires ProductsOk(products) && i < |products|
    ensures GetProduct(products, categories, products[i].id) == Ok(Populate(products[i], categories))
  {
    CastStoredId(products[i].id);
    FindUnique(products, ProductId, products[i].id, i);
  }

  /** The body `POST /` validates: the form fields, with `imageUrl` set to the normalised upload path and `tags` split. */
  function CreateBody(body: Body, path: string): Body
  {
    NormalizeTags(body["imageUrl" := Str(ReplaceBackslashes(path))])
  }

  /**
   * The reply and the product collection after `POST /`, where `file` is the path multer
   * stored the uploaded `imageUrl` file at, if one was uploaded.
   */
  function CreateProductOutcome(products: seq<Product>, body: Body, file: Option<string>, newId: string): (out: (Reply<Product>, seq<Product>))
    ensures file.None? ==> out == (Fail(404, "Product must have at least one image"), products)
    ensures !out.0.Ok? ==> out.1 == products
    ensures out.0.Ok? ==> out.1 == products + [out.0.data] && out.0.data.id == newId && ProductSchemaValid(out.0.data)
    ensures out.0.Ok? ==> file.Some? && out.0.data.imageUrl == ReplaceBackslashes(file.value)
    ensures out.0.Ok? && Get(body, "tags").Str? ==> out.0.data.tags == SplitTags(Get(body, "tags").s)
    ensures out.0.Ok? ==> ValidateAddProduct(CreateBody(body, file.value)).Pass?
    ensures file.Some? ==>
      (out.0 == Fail(400, "Tags must be an array of strings") <==> !Get(body, "tags").Str? && !Get(body, "tags").Arr?)
    ensures file.Some? && (Get(body, "tags").Str? || Get(body, "tags").Arr?) ==>
      out == InsertOutcome(products, CreateBody(body, file.value), newId)
    ensures out.0.Ok? <==>
      && file.Some? && (Get(body, "tags").Str? || Get(body, "tags").Arr?)
      && ValidateAddProduct(CreateBody(body, file.value)).Pass?
      && ProductSchemaValid(NewProduct(newId, CreateBody(body, file.value)))
  {
    match file
    case None => (Fail(404, "Product must have at least one image"), products)
    case Some(path) =>
      var b := CreateBody(body, path);
      if !Get(b, "tags").Arr? then (Fail(400, "Tags must be an array of strings"), products)
      else InsertOutcome(products, b, newId)
  }

  /** The end of `POST /`: validate the prepared body, build the product, save it. */
  function InsertOutcome(products: seq<Product>, b: Body, newId: string): (out: (Reply<Product>, seq<Product>))
    ensures !out.0.Ok? ==> out.1 == products
    ensures ValidateAddProduct(b).Reject? ==> out.0 == Invalid(ValidateAddProduct(b).path)
    ensures out.0.Ok? <==> ValidateAddProduct(b).Pass? && ProductSchemaValid(NewProduct(newId, b))
    ensures out.0.Ok? ==> out == (Ok(NewProduct(newId, b)), products + [NewProduct(newId, b)])
  {
    match ValidateAddProduct(b)
    case Reject(p) => (Invalid(p), products)
    case Pass =>
      var product := NewProduct(newId, b);
      if ProductSchemaValid(product) then (Ok(product), products + [product]) else (Thrown, products)
  }

  /**
   * A body that passes `validateAddProduct` builds a product that meets every schema rule
   * except, possibly, the discount validator: the only way a validated create fails at save.
   */
  lemma CreateFailsAtSaveOnlyOnDiscount(products: seq<Product>, body: Body, path: string, newId: string)
    ensures var out := CreateProductOutcome(products, body, Some(path), newId);
      out.0 == Thrown <==>
        ValidateAddProduct(CreateBody(body, path)).Pass? && !DiscountBelowPrice(NewProduct(newId, CreateBody(body, path)))
  {
    var b := CreateBody(body, path);
    if ValidateAddProduct(b).Pass? {
      ValidateAddProductMeaning(b);
      ValidatedBodyBuildsValidProduct(b, newId);
    }
  }

  /** The schema rules other than the discount validator hold of a product built from a body `validateAddProduct` accepts. */
  lemma ValidatedBodyBuildsValidProduct(b: Body, newId: string)
    requires ProductBodyOk(b, true)
    ensures var p := NewProduct(newId, b);
      ProductSchemaValid(p) <==> DiscountBelowPrice(p)
  {
    var p := NewProduct(newId, b);
    assert Get(b, "category").Str? && IsHex24(Get(b, "category").s);
    assert IsId(p.category);
  }

  lemma CreateProductKeepsProductsOk(products: seq<Product>, body: Body, file: Option<string>, newId: string)
    requires ProductsOk(products)
    requires IsId(newId) && Find(products, ProductId, newId).None?
    ensures ProductsOk(CreateProductOutcome(products, body, file, newId).1)
  {
    var out := CreateProductOutcome(products, body, file, newId);
    if out.0.Ok? {
      ProductsOkAppend(products, out.0.data);
    }
  }

  /** Storing a schema-valid product under a fresh ObjectId keeps the collection well-formed. */
  lemma ProductsOkAppend(products: seq<Product>, p: Product)
    requires ProductsOk(products)
    requires IsId(p.id) && ProductSchemaValid(p) && Find(products, ProductId, p.id).None?
    ensures ProductsOk(products + [p])
  {
    AppendUnique(products, ProductId, p);
    var r := products + [p];
    forall i | 0 <= i < |r| ensures IsId(r[i].id) && ProductSchemaValid(r[i]) {
      if i < |products| { assert r[i] == products[i]; }
    }
  }

  /**
   * `POST /`: no upload is a 404 before anything else; then the path is normalised into
   * the body, a text `tags` is split, a non-array `tags` is a 400, the body is validated,
   * the product is built and saved. A rejected save (the discount validator) leaves the
   * handler, which has no `try`.
   */
  method CreateProduct(db: Db, body: Body, file: Option<string>, newId: string) returns (reply: Reply<Product>)
    requires db.Valid()
    requires IsId(newId) && Find(db.products, ProductId, newId).None?
    modifies db`products
    ensures db.Valid()
    ensures (reply, db.products) == CreateProductOutcome(old(db.products), body, file, newId)
  {
    CreateProductKeepsProductsOk(db.products, body, file, newId);
    if file.None? {
      return Fail(404, "Product must have at least one image");
    }
    var b := body["imageUrl" := Str(ReplaceBackslashes(file.value))];
    b := NormalizeTags(b);
    if !Get(b, "tags").Arr? {
      return Fail(400, "Tags must be an array of strings");
    }
    reply := InsertProduct(db, b, newId);
  }

  /** `validateAddProduct(req.body)`, `new Product(req.body)` and `product.save()`, whose rejection leaves the handler. */
  method InsertProduct(db: Db, b: Body, newId: string) returns (reply: Reply<Product>)
    modifies db`products
    ensures (reply, db.products) == InsertOutcome(old(db.products), b, newId)
  {
    var verdict := ValidateAddProduct(b);
    if verdict.Reject? {
      return Invalid(verdict.path);
    }
    var product := NewProduct(newId, b);
    if !ProductSchemaValid(product) {
      return Thrown;
    }
    db.products := db.products + [product];
    reply := Ok(product);
  }

  /**
   * The fetched product after the update handler's assignments: each field the body
   * supplies with a truthy value is overwritten (the image from the upload, the category
   * by its ObjectId), every other field keeps its stored value.
   */
  function MergeUpdate(p: Product, body: Body, file: Option<string>): Product
  {
    var category := CastValue(Get(body, "category"));
    p.(
      title := if Truthy(Get(body, "title")) then TextOf(Get(body, "title")) else p.title,
      price := if Truthy(Get(body, "price")) then NumberOf(Get(body, "price")) else p.price,
      discountPrice := if Truthy(Get(body, "discountPrice")) then Some(NumberOf(Get(body, "discountPrice"))) else p.discountPrice,
      imageUrl := if file.Some? then ReplaceBackslashes(file.value) else p.imageUrl,
      description := if Truthy(Get(body, "description")) then TextOf(Get(body, "description")) else p.description,
      features := if Truthy(Get(body, "features")) then TextOf(Get(body, "features")) else p.features,
      tags := if Truthy(Get(body, "tags")) then TextsOf(Get(body, "tags")) else p.tags,
      category := if Truthy(Get(body, "category")) && category.Some? then category.value else p.category,
      whatsappNumber := if Truthy(Get(body, "whatsappNumber")) then Some(TextOf(Get(body, "whatsappNumber"))) else p.whatsappNumber,
      telegramNumber := if Truthy(Get(body, "telegramNumber")) then Some(TextOf(Get(body, "telegramNumber"))) else p.telegramNumber)
  }

  /** A body with no truthy field and no upload leaves the product as it is stored. */
  lemma EmptyUpdateChangesNothing(p: Product, body: Body)
    requires forall k :: k in body ==> !Truthy(body[k])
    ensures MergeUpdate(p, body, None) == p
  {
    assert !Truthy(Get(body, "title")) && !Truthy(Get(body, "price")) && !Truthy(Get(body, "discountPrice"));
    assert !Truthy(Get(body, "description")) && !Truthy(Get(body, "features")) && !Truthy(Get(body, "tags"));
    assert !Truthy(Get(body, "category")) && !Truthy(Get(body, "whatsappNumber")) && !Truthy(Get(body, "telegramNumber"));
  }

  /**
   * The check `update` makes of a truthy `category`: `Category.findById` casts it (an array
   * is looked up with `$in`), then a category must be found.
   */
  datatype CategoryCheck = NoCategory | BadCast | Missing | Exists

  function CheckCategory(categories: seq<Category>, v: JsValue): (r: CategoryCheck)
    ensures r == NoCategory <==> !Truthy(v)
    ensures r == BadCast <==> Truthy(v) && CastQuery(v).None?
    ensures r == Exists ==> CastQuery(v).Some? && exists c :: c in categories && c.id in CastQuery(v).value
    ensures r == Missing ==> CastQuery(v).Some? && forall c :: c in categories ==> c.id !in CastQuery(v).value
  {
    if !Truthy(v) then NoCategory
    else match CastQuery(v)
      case None => BadCast
      case Some(ids) => if FindIn(categories, CategoryId, ids).Some? then Exists else Missing
  }

  /** For a text `category` the check is a lookup of its ObjectId. */
  lemma CheckTextCategory(categories: seq<Category>, s: string)
    requires s != ""
    ensures CheckCategory(categories, Str(s)) ==
      match CastId(s)
      case None => BadCast
      case Some(id) => if Find(categories, CategoryId, id).Some? then Exists else Missing
  {
    if CastId(s).Some? {
      FindInOne(categories, CategoryId, CastId(s).value);
    }
  }

  /**
   * An array `category` never reaches the save: when one of its elements names a stored
   * category, the lookup passes and `validateUpdateProduct` then rejects the array.
   */
  lemma ArrayCategoryNeverSaved(products: seq<Product>, categories: seq<Category>, i: nat, body: Body, file: Option<string>)
    requires i < |products|
    requires Get(body, "category").Arr?
    ensures var out := UpdateFoundOutcome(products, categories, i, body, file);
      !out.0.Ok? && out.1 == products
    ensures var b := NormalizeTags(body);
      (!Truthy(Get(b, "tags")) || Get(b, "tags").Arr?) && CheckCategory(categories, Get(body, "category")) == Exists ==>
        ValidateUpdateProduct(b).Reject?
        && UpdateFoundOutcome(products, categories, i, body, file).0 == Invalid(ValidateUpdateProduct(b).path)
  {
    var b := NormalizeTags(body);
    assert Get(b, "category") == Get(body, "category");
    ValidateUpdateProductMeaning(b);
  }

  /** The reply and the product collection after `PUT /:productId`. */
  function UpdateProductOutcome(products: seq<Product>, categories: seq<Category>, productId: string, body: Body, file: Option<string>):
    (out: (Reply<Product>, seq<Product>))
    ensures !out.0.Ok? ==> out.1 == products
    ensures CastId(productId).None? ==> out.0 == Fail(500, "Internal server error")
    ensures CastId(productId).Some? && Find(products, ProductId, CastId(productId).value).None? ==>
      out.0 == Fail(404, "Product not found")
    ensures out.0.Ok? ==>
      var i := Find(products, ProductId, CastId(productId).value).value;
      && ValidateUpdateProduct(NormalizeTags(body)).Pass?
      && out.0.data == MergeUpdate(products[i], NormalizeTags(body), file)
      && ProductSchemaValid(out.0.data)
      && out.1 == products[i := out.0.data]
    ensures CastId(productId).Some? && Find(products, ProductId, CastId(productId).value).Some? ==>
      out == UpdateFoundOutcome(products, categories, Find(products, ProductId, CastId(productId).value).value, body, file)
  {
    match CastId(productId)
    case None => (Fail(500, "Internal server error"), products)
    case Some(id) =>
      match Find(products, ProductId, id)
      case None => (Fail(404, "Product not found"), products)
      case Some(i) => UpdateFoundOutcome(products, categories, i, body, file)
  }

  /** The reply and the product collection after `PUT /:productId` once the product at position `i` is fetched. */
  function UpdateFoundOutcome(products: seq<Product>, categories: seq<Category>, i: nat, body: Body, file: Option<string>):
    (out: (Reply<Product>, seq<Product>))
    requires i < |products|
    ensures !out.0.Ok? ==> out.1 == products
    ensures out.0.Ok? ==>
      && ValidateUpdateProduct(NormalizeTags(body)).Pass?
      && out.0.data == MergeUpdate(products[i], NormalizeTags(body), file)
      && ProductSchemaValid(out.0.data)
      && out.1 == products[i := out.0.data]
  {
    var b := NormalizeTags(body);
    if Truthy(Get(b, "tags")) && !Get(b, "tags").Arr? then (Fail(400, "Tags must be an array of strings"), products)
    else
      match CheckCategory(categories, Get(b, "category"))
      case BadCast => (Fail(500, "Internal server error"), products)
      case Missing => (Fail(400, "Invalid category."), products)
      case _ => SaveOutcome(products, i, b, MergeUpdate(products[i], b, file))
  }

  /** The end of `PUT /:productId`: validate the request body, then save the assigned product `q` in place of the one at `i`. */
  function SaveOutcome(products: seq<Product>, i: nat, b: Body, q: Product): (out: (Reply<Product>, seq<Product>))
    requires i < |products|
    ensures !out.0.Ok? ==> out.1 == products
    ensures out.0.Ok? <==> ValidateUpdateProduct(b).Pass? && ProductSchemaValid(q)
    ensures out.0.Ok? ==> out == (Ok(q), products[i := q])
  {
    match ValidateUpdateProduct(b)
    case Reject(path) => (Invalid(path), products)
    case Pass => if ProductSchemaValid(q) then (Ok(q), products[i := q]) else (Fail(500, "Internal server error"), products)
  }

  /**
   * The order of the checks of an update whose product exists: a bad `tags` value first,
   * then the category, then the body's validation; each failure stores nothing. Validation
   * looks at the request body (with `tags` split), not at the merged product.
   */
  lemma UpdateCheckOrder(products: seq<Product>, categories: seq<Category>, i: nat, body: Body, file: Option<string>)
    requires i < |products|
    ensures var out := UpdateFoundOutcome(products, categories, i, body, file);
      var b := NormalizeTags(body);
      var tagsOk := !Truthy(Get(b, "tags")) || Get(b, "tags").Arr?;
      var check := CheckCategory(categories, Get(b, "category"));
      && (!tagsOk ==> out == (Fail(400, "Tags must be an array of strings"), products))
      && (tagsOk && check == Missing ==> out == (Fail(400, "Invalid category."), products))
      && (tagsOk && check == BadCast ==> out == (Fail(500, "Internal server error"), products))
      && (tagsOk && (check == NoCategory || check == Exists) && ValidateUpdateProduct(b).Reject? ==>
            out == (Invalid(ValidateUpdateProduct(b).path), products))
      && (tagsOk && (check == NoCategory || check == Exists) && ValidateUpdateProduct(b).Pass? ==>
            var q := MergeUpdate(products[i], b, file);
            out == if ProductSchemaValid(q) then (Ok(q), products[i := q]) else (Fail(500, "Internal server error"), products))
  {
  }

  /**
   * The validated body is not the merged product: a body can pass `validateUpdateProduct`
   * with a discount alone, which the save then rejects against the stored price.
   */
  lemma UpdateValidatesBodyNotMerged(products: seq<Product>, categories: seq<Category>, productId: string, d: real)
    requires CastId(productId).Some? && Find(products, ProductId, CastId(productId).value).Some?
    requires d > 0.0 && d >= products[Find(products, ProductId, CastId(productId).value).value].price
    requires IsSafeNumber(d)
    ensures ValidateUpdateProduct(map["discountPrice" := Num(d)]).Pass?
    ensures UpdateProductOutcome(products, categories, productId, map["discountPrice" := Num(d)], None).0
      == Fail(500, "Internal server error")
  {
    var body := map["discountPrice" := Num(d)];
    DiscountOnlyBodyPasses(d);
    assert NormalizeTags(body) == body;
    assert !Truthy(Get(body, "category")) && !Truthy(Get(body, "tags"));
    var i := Find(products, ProductId, CastId(productId).value).value;
    var q := MergeUpdate(products[i], body, None);
    assert q.discountPrice == Some(d) && q.price == products[i].price;
    assert !ProductSchemaValid(q);
  }

  /** A body holding only a number as `discountPrice` passes `validateUpdateProduct` exactly when the number is safe. */
  lemma DiscountOnlyBodyPasses(d: real)
    ensures ValidateUpdateProduct(map["discountPrice" := Num(d)]).Pass? <==> IsSafeNumber(d)
  {
    var body := map["discountPrice" := Num(d)];
    ValidateUpdateProductMeaning(body);
    if IsSafeNumber(d) {
      assert forall k :: k != "discountPrice" ==> Get(body, k) == Undefined;
      assert body.Keys == {"discountPrice"};
      assert ProductBodyOk(body, false);
    } else {
      assert Get(body, "discountPrice") == Num(d);
      assert !NumberField(body, "discountPrice", false, false, None, None);
    }
  }

  lemma UpdateProductKeepsProductsOk(products: seq<Product>, categories: seq<Category>, productId: string, body: Body, file: Option<string>)
    requires ProductsOk(products)
    ensures ProductsOk(UpdateProductOutcome(products, categories, productId, body, file).1)
  {
    var out := UpdateProductOutcome(products, categories, productId, body, file);
    if out.0.Ok? {
      var i := Find(products, ProductId, CastId(productId).value).value;
      ReplaceUnique(products, ProductId, i, out.0.data);
      var r := out.1;
      forall a | 0 <= a < |r| ensures IsId(r[a].id) && ProductSchemaValid(r[a]) {
        if a != i { assert r[a] == products[a]; }
      }
    }
  }

  /** The handler's assignments before `tags`: title, price, discount, the uploaded image, description, features. */
  method AssignLeadingFields(p: Product, b: Body, file: Option<string>) returns (q: Product)
    ensures q == p.(
      title := MergeUpdate(p, b, file).title,
      price := MergeUpdate(p, b, file).price,
      discountPrice := MergeUpdate(p, b, file).discountPrice,
      imageUrl := MergeUpdate(p, b, file).imageUrl,
      description := MergeUpdate(p, b, file).description,
      features := MergeUpdate(p, b, file).features)
  {
    q := p;
    if Truthy(Get(b, "title")) { q := q.(title := TextOf(Get(b, "title"))); }
    if Truthy(Get(b, "price")) { q := q.(price := NumberOf(Get(b, "price"))); }
    if Truthy(Get(b, "discountPrice")) { q := q.(discountPrice := Some(NumberOf(Get(b, "discountPrice")))); }
    if file.Some? { q := q.(imageUrl := ReplaceBackslashes(file.value)); }
    if Truthy(Get(b, "description")) { q := q.(description := TextOf(Get(b, "description"))); }
    if Truthy(Get(b, "features")) { q := q.(features := TextOf(Get(b, "features"))); }
  }

  /** The assignments before `tags` read the same values from the body before and after its `tags` are split. */
  lemma LeadingFieldsIgnoreTags(p: Product, body: Body, file: Option<string>)
    ensures var m := MergeUpdate(p, body, file);
      var n := MergeUpdate(p, NormalizeTags(body), file);
      && m.title == n.title && m.price == n.price && m.discountPrice == n.discountPrice
      && m.imageUrl == n.imageUrl && m.description == n.description && m.features == n.features
  {
    var b := NormalizeTags(body);
    assert Get(b, "title") == Get(body, "title") && Get(b, "price") == Get(body, "price");
    assert Get(b, "discountPrice") == Get(body, "discountPrice") && Get(b, "description") == Get(body, "description");
    assert Get(b, "features") == Get(body, "features");
  }

  /**
   * The handler's `tags` and `category` steps: a truthy `tags` that is not an array is a
   * 400; a truthy `category` that `findById` cannot cast is a cast error (a 500) and one
   * naming no stored category a 400; otherwise both are assigned when truthy. An array
   * `category` that passes the lookup does not cast as one ObjectId, so the document
   * keeps its stored category (validation rejects the array before any save).
   */
  method AssignTagsAndCategory(categories: seq<Category>, p: Product, b: Body) returns (r: Reply<Product>)
    ensures Truthy(Get(b, "tags")) && !Get(b, "tags").Arr? ==> r == Fail(400, "Tags must be an array of strings")
    ensures (!Truthy(Get(b, "tags")) || Get(b, "tags").Arr?) ==>
      match CheckCategory(categories, Get(b, "category"))
      case BadCast => r == Fail(500, "Internal server error")
      case Missing => r == Fail(400, "Invalid category.")
      case _ => r == Ok(p.(tags := MergeUpdate(p, b, None).tags, category := MergeUpdate(p, b, None).category))
  {
    var q := p;
    if Truthy(Get(b, "tags")) {
      if !Get(b, "tags").Arr? {
        return Fail(400, "Tags must be an array of strings");
      }
      q := q.(tags := TextsOf(Get(b, "tags")));
    }
    if Truthy(Get(b, "category")) {
      var ids := CastQuery(Get(b, "category"));
      if ids.None? {
        return Fail(500, "Internal server error");
      }
      if FindIn(categories, CategoryId, ids.value).None? {
        return Fail(400, "Invalid category.");
      }
      var category := CastValue(Get(b, "category"));
      if category.Some? {
        q := q.(category := category.value);
      }
    }
    r := Ok(q);
  }

  /** The handler's last two assignments: the WhatsApp and Telegram numbers. */
  method AssignPhoneNumbers(p: Product, b: Body) returns (q: Product)
    ensures q == p.(
      whatsappNumber := MergeUpdate(p, b, None).whatsappNumber,
      telegramNumber := MergeUpdate(p, b, None).telegramNumber)
  {
    q := p;
    if Truthy(Get(b, "whatsappNumber")) { q := q.(whatsappNumber := Some(TextOf(Get(b, "whatsappNumber")))); }
    if Truthy(Get(b, "telegramNumber")) { q := q.(telegramNumber := Some(TextOf(Get(b, "telegramNumber")))); }
  }

  /**
   * `PUT /:productId`: the fetched product is assigned field by field, in the handler's
   * order, with the `tags` and `category` checks between the assignments; then the body is
   * validated and the product saved. Every error inside the `try` becomes a 500.
   */
  method UpdateProduct(db: Db, productId: string, body: Body, file: Option<string>) returns (reply: Reply<Product>)
    requires db.Valid()
    modifies db`products
    ensures db.Valid()
    ensures (reply, db.products) == UpdateProductOutcome(old(db.products), db.categories, productId, body, file)
  {
    UpdateProductKeepsProductsOk(db.products, db.categories, productId, body, file);
    var id := CastId(productId);
    if id.None? {
      return Fail(500, "Internal server error");
    }
    var found := Find(db.products, ProductId, id.value);
    if found.None? {
      return Fail(404, "Product not found");
    }
    reply := UpdateFound(db, found.value, body, file);
  }

  /** The rest of `PUT /:productId`, once the product at position `i` is fetched. */
  method UpdateFound(db: Db, i: nat, body: Body, file: Option<string>) returns (reply: Reply<Product>)
    requires i < |db.products|
    modifies db`products
    ensures (reply, db.products) == UpdateFoundOutcome(old(db.products), db.categories, i, body, file)
  {
    ghost var merged := MergeUpdate(db.products[i], NormalizeTags(body), file);
    var product := AssignLeadingFields(db.products[i], body, file);
    LeadingFieldsIgnoreTags(db.products[i], body, file);
    var b := NormalizeTags(body);
    var checked := AssignTagsAndCategory(db.categories, product, b);
    if !checked.Ok? {
      return checked;
    }
    product := AssignPhoneNumbers(checked.data, b);
    assert product == merged;
    reply := SaveUpdate(db, i, b, product);
  }

  /** `validateUpdateProduct(req.body)`, then `product.save()`, whose schema errors the `catch` turns into a 500. */
  method SaveUpdate(db: Db, i: nat, b: Body, product: Product) returns (reply: Reply<Product>)
    requires i < |db.products|
    modifies db`products
    ensures (reply, db.products) == SaveOutcome(old(db.products), i, b, product)
  {
    var verdict := ValidateUpdateProduct(b);
    if verdict.Reject? {
      return Invalid(verdict.path);
    }
    if !ProductSchemaValid(product) {
      return Fail(500, "Internal server error");
    }
    db.products := db.products[i := product];
    reply := Ok(product);
  }

  /** The reply and the product collection after `DELETE /:productId`. */
  function DeleteProductOutcome(products: seq<Product>, productId: string): (out: (Reply<()>, seq<Product>))
    ensures CastId(productId).None? ==> out == (Fail(500, "Internal Server Error"), products)
    ensures CastId(productId).Some? && Find(products, ProductId, CastId(productId).value).None? ==>
      out == (Fail(404, "Product not found"), products)
    ensures out.0.Ok? <==> CastId(productId).Some? && Find(products, ProductId, CastId(productId).value).Some?
  {
    match CastId(productId)
    case None => (Fail(500, "Internal Server Error"), products)
    case Some(id) =>
      match Find(products, ProductId, id)
      case None => (Fail(404, "Product not found"), products)
      case Some(_) => (Ok(()), DeleteFirst(products, ProductId, id))
  }

  /** A successful delete removes exactly the product with that id and keeps every other product. */
  lemma DeleteProductRemovesOnlyIt(products: seq<Product>, productId: string)
    requires ProductsOk(products)
    ensures var out := DeleteProductOutcome(products, productId);
      out.0.Ok? ==> forall p :: p in out.1 <==> p in products && p.id != CastId(productId).value
    ensures ProductsOk(DeleteProductOutcome(products, productId).1)
  {
    match CastId(productId)
    case None =>
    case Some(id) =>
      DeleteFirstUnique(products, ProductId, id);
      DeleteFirstSubset(products, ProductId, ProductId, id);
  }

  /** `DELETE /:productId`: only the product collection changes. */
  method DeleteProduct(db: Db, productId: string) returns (reply: Reply<()>)
    requires db.Valid()
    modifies db`products
    ensures db.Valid()
    ensures (reply, db.products) == DeleteProductOutcome(old(db.products), productId)
    ensures db.categories == old(db.categories) && db.orders == old(db.orders) && db.users == old(db.users)
  {
    DeleteProductRemovesOnlyIt(db.products, productId);
    var id := CastId(productId);
    if id.None? {
      return Fail(500, "Internal Server Error");
    }
    if Find(db.products, ProductId, id.value).None? {
      return Fail(404, "Product not found");
    }
    db.products := DeleteFirst(db.products, ProductId, id.value);
    reply := Ok(());
  }
}
