/** `models/product.js`: the Product record, its Mongoose schema, and the two Joi validators. */
module ProductModel {
  import opened Base
  import opened Js
  import opened Joi
  import opened Mongo

  datatype Product = Product(
    id: string,
    title: string,
    price: real,
    discountPrice: Option<real>,
    imageUrl: string,
    description: string,
    features: string,
    tags: seq<string>,
    category: string,
    whatsappNumber: Option<string>,
    telegramNumber: Option<string>)

  function ProductId(p: Product): string { p.id }

  /** The custom validator on `discountPrice` (`value < this.price`); it does not run when the path is unset. */
  predicate DiscountBelowPrice(p: Product)
  {
    p.discountPrice.Some? ==> p.discountPrice.value < p.price
  }

  /**
   * What `product.save()` checks: title of 1-255 characters, price at least 0, the
   * discount validator, the required texts non-empty (Mongoose's `required` rejects
   * ""), and a category that is an ObjectId.
   */
  predicate ProductSchemaValid(p: Product)
  {
    && 1 <= |p.title| <= 255
    && p.price >= 0.0
    && DiscountBelowPrice(p)
    && p.imageUrl != ""
    && p.description != ""
    && p.features != ""
    && IsId(p.category)
  }

  /** What the collection holds: schema-valid products with distinct ObjectIds. */
  predicate ProductsOk(products: seq<Product>)
  {
    && (forall i :: 0 <= i < |products| ==> IsId(products[i].id) && ProductSchemaValid(products[i]))
    && UniqueBy(products, ProductId)
  }

  /** Mongoose's `[String]` cast of a validated array. */
  function TextsOf(v: JsValue): (r: seq<string>)
    ensures v.Arr? ==> |r| == |v.items| && forall i :: 0 <= i < |r| ==> r[i] == TextOf(v.items[i])
    ensures !v.Arr? ==> r == []
  {
    if v.Arr? then seq(|v.items|, i requires 0 <= i < |v.items| => TextOf(v.items[i])) else []
  }

  /**
   * `new Product({title: body.title, ...})` with the id `id`: every path is taken from the
   * body of the same name; an absent `discountPrice` or phone number leaves the path unset,
   * an absent `tags` takes the schema default, the empty list.
   */
  function NewProduct(id: string, body: Body): (p: Product)
    ensures p.id == id
    ensures Get(body, "tags") == Undefined ==> p.tags == []
    ensures Get(body, "discountPrice") == Undefined <==> p.discountPrice.None?
    ensures Get(body, "whatsappNumber") == Undefined <==> p.whatsappNumber.None?
    ensures Get(body, "telegramNumber") == Undefined <==> p.telegramNumber.None?
  {
    var category := CastValue(Get(body, "category"));
    Product(
      id,
      TextOf(Get(body, "title")),
      NumberOf(Get(body, "price")),
      if Get(body, "discountPrice") == Undefined then None else Some(NumberOf(Get(body, "discountPrice"))),
      TextOf(Get(body, "imageUrl")),
      TextOf(Get(body, "description")),
      TextOf(Get(body, "features")),
      TextsOf(Get(body, "tags")),
      if category.Some? then category.value else "",
      OptionalText(Get(body, "whatsappNumber")),
      OptionalText(Get(body, "telegramNumber")))
  }

  const AddProductSchema: seq<Key> := [
    Key("title", Text(1, Some(255), Plain), true, false),
    Key("price", Number(Some(0.0), None), true, false),
    Key("discountPrice", Number(None, None), false, false),
    Key("imageUrl", Text(0, None, Plain), true, false),
    Key("description", Text(0, None, Plain), true, false),
    Key("features", Text(0, None, Plain), true, false),
    Key("tags", TextList(1, 255), true, false),
    Key("category", Text(0, None, HexObjectId), true, false),
    Key("whatsappNumber", Text(0, None, Plain), false, false),
    Key("telegramNumber", Text(0, None, Plain), false, false)
  ]

  const UpdateProductSchema: seq<Key> := [
    Key("title", Text(1, Some(255), Plain), false, false),
    Key("price", Number(Some(0.0), None), false, false),
    Key("discountPrice", Number(None, None), false, false),
    Key("imageUrl", Text(0, None, Plain), false, false),
    Key("description", Text(0, None, Plain), false, false),
    Key("features", Text(0, None, Plain), false, false),
    Key("tags", TextList(1, 255), false, false),
    Key("category", Text(0, None, HexObjectId), false, false),
    Key("whatsappNumber", Text(0, None, Plain), false, false),
    Key("telegramNumber", Text(0, None, Plain), false, false)
  ]

  const ProductKeys: set<string> := {
    "title", "price", "discountPrice", "imageUrl", "description", "features",
    "tags", "category", "whatsappNumber", "telegramNumber"
  }

  /** The body supplies every key `validateAddProduct` requires. */
  predicate HasRequiredProductKeys(body: Body)
  {
    && Get(body, "title") != Undefined && Get(body, "price") != Undefined
    && Get(body, "imageUrl") != Undefined && Get(body, "description") != Undefined
    && Get(body, "features") != Undefined && Get(body, "tags") != Undefined
    && Get(body, "category") != Undefined
  }

  /** `validateAddProduct(body)`; the schema has no email rule, so no email check is supplied. */
  function ValidateAddProduct(body: Body): Verdict
  {
    Validate(AddProductSchema, body, NoEmail)
  }

  /** `validateUpdateProduct(body)`; the schema has no email rule, so no email check is supplied. */
  function ValidateUpdateProduct(body: Body): Verdict
  {
    Validate(UpdateProductSchema, body, NoEmail)
  }

  /**
   * The rules of both product validators, with `required` saying whether the fields the
   * add validator requires must be present: title 1-255 characters; price a number at
   * least 0; discountPrice any number; imageUrl, description, features non-empty texts;
   * tags an array of texts of 1-255 characters; category 24 hex digits; the two phone
   * numbers optional non-empty texts; no other key.
   */
  predicate ProductBodyOk(body: Body, required: bool)
  {
    && TextField(body, "title", required, 1, Some(255), Plain, NoEmail)
    && NumberField(body, "price", required, false, Some(0.0), None)
    && NumberField(body, "discountPrice", false, false, None, None)
    && TextField(body, "imageUrl", required, 0, None, Plain, NoEmail)
    && TextField(body, "description", required, 0, None, Plain, NoEmail)
    && TextField(body, "features", required, 0, None, Plain, NoEmail)
    && TextListField(body, "tags", required, 1, 255)
    && TextField(body, "category", required, 0, None, HexObjectId, NoEmail)
    && TextField(body, "whatsappNumber", false, 0, None, Plain, NoEmail)
    && TextField(body, "telegramNumber", false, 0, None, Plain, NoEmail)
    && body.Keys <= ProductKeys
  }

  lemma ProductSchemaNames(S: seq<Key>)
    requires S == AddProductSchema || S == UpdateProductSchema
    ensures Names(S) == ProductKeys
  {
    assert S[0].name == "title" && S[1].name == "price" && S[2].name == "discountPrice";
    assert S[3].name == "imageUrl" && S[4].name == "description" && S[5].name == "features";
    assert S[6].name == "tags" && S[7].name == "category";
    assert S[8].name == "whatsappNumber" && S[9].name == "telegramNumber";
  }

  /** The key rules of a product schema, one by one, are the field rules of `ProductBodyOk`. */
  lemma ProductKeyRules(S: seq<Key>, required: bool, body: Body)
    requires S == (if required then AddProductSchema else UpdateProductSchema)
    ensures |S| == 10
    ensures KeyAccepts(S, 0, body, NoEmail) == TextField(body, "title", required, 1, Some(255), Plain, NoEmail)
    ensures KeyAccepts(S, 1, body, NoEmail) == NumberField(body, "price", required, false, Some(0.0), None)
    ensures KeyAccepts(S, 2, body, NoEmail) == NumberField(body, "discountPrice", false, false, None, None)
    ensures KeyAccepts(S, 3, body, NoEmail) == TextField(body, "imageUrl", required, 0, None, Plain, NoEmail)
    ensures KeyAccepts(S, 4, body, NoEmail) == TextField(body, "description", required, 0, None, Plain, NoEmail)
    ensures KeyAccepts(S, 5, body, NoEmail) == TextField(body, "features", required, 0, None, Plain, NoEmail)
    ensures KeyAccepts(S, 6, body, NoEmail) == TextListField(body, "tags", required, 1, 255)
    ensures KeyAccepts(S, 7, body, NoEmail) == TextField(body, "category", required, 0, None, HexObjectId, NoEmail)
    ensures KeyAccepts(S, 8, body, NoEmail) == TextField(body, "whatsappNumber", false, 0, None, Plain, NoEmail)
    ensures KeyAccepts(S, 9, body, NoEmail) == TextField(body, "telegramNumber", false, 0, None, Plain, NoEmail)
  {
    LeadingKeyRules(S, required, body);
    TrailingKeyRules(S, required, body);
  }

  lemma LeadingKeyRules(S: seq<Key>, required: bool, body: Body)
    requires S == (if required then AddProductSchema else UpdateProductSchema)
    ensures KeyAccepts(S, 0, body, NoEmail) == TextField(body, "title", required, 1, Some(255), Plain, NoEmail)
    ensures KeyAccepts(S, 1, body, NoEmail) == NumberField(body, "price", required, false, Some(0.0), None)
    ensures KeyAccepts(S, 2, body, NoEmail) == NumberField(body, "discountPrice", false, false, None, None)
    ensures KeyAccepts(S, 3, body, NoEmail) == TextField(body, "imageUrl", required, 0, None, Plain, NoEmail)
    ensures KeyAccepts(S, 4, body, NoEmail) == TextField(body, "description", required, 0, None, Plain, NoEmail)
  {
    assert S[0] == Key("title", Text(1, Some(255), Plain), required, false);
    assert S[1] == Key("price", Number(Some(0.0), None), required, false);
    assert S[2] == Key("discountPrice", Number(None, None), false, false);
    assert S[3] == Key("imageUrl", Text(0, None, Plain), required, false);
    assert S[4] == Key("description", Text(0, None, Plain), required, false);
  }

  lemma TrailingKeyRules(S: seq<Key>, required: bool, body: Body)
    requires S == (if required then AddProductSchema else UpdateProductSchema)
    ensures KeyAccepts(S, 5, body, NoEmail) == TextField(body, "features", required, 0, None, Plain, NoEmail)
    ensures KeyAccepts(S, 6, body, NoEmail) == TextListField(body, "tags", required, 1, 255)
    ensures KeyAccepts(S, 7, body, NoEmail) == TextField(body, "category", required, 0, None, HexObjectId, NoEmail)
    ensures KeyAccepts(S, 8, body, NoEmail) == TextField(body, "whatsappNumber", false, 0, None, Plain, NoEmail)
    ensures KeyAccepts(S, 9, body, NoEmail) == TextField(body, "telegramNumber", false, 0, None, Plain, NoEmail)
  {
    assert S[5] == Key("features", Text(0, None, Plain), required, false);
    assert S[6] == Key("tags", TextList(1, 255), required, false);
    assert S[7] == Key("category", Text(0, None, HexObjectId), required, false);
    assert S[8] == Key("whatsappNumber", Text(0, None, Plain), false, false);
    assert S[9] == Key("telegramNumber", Text(0, None, Plain), false, false);
  }

  /** Both product validators accept exactly the bodies `ProductBodyOk` describes. */
  lemma ProductValidatorRules(S: seq<Key>, required: bool, body: Body)
    requires S == (if required then AddProductSchema else UpdateProductSchema)
    ensures Validate(S, body, NoEmail).Pass? ==> ProductBodyOk(body, required)
    ensures ProductBodyOk(body, required) ==> Validate(S, body, NoEmail).Pass?
  {
    ValidateMeaning(S, body, NoEmail);
    if Accepts(S, body, NoEmail) {
      AcceptedProductBody(S, required, body);
    }
    if ProductBodyOk(body, required) {
      ProductBodyAccepted(S, required, body);
    }
  }

  lemma AcceptedProductBody(S: seq<Key>, required: bool, body: Body)
    requires S == (if required then AddProductSchema else UpdateProductSchema)
    requires Accepts(S, body, NoEmail)
    ensures ProductBodyOk(body, required)
  {
    ProductSchemaNames(S);
    ProductKeyRules(S, required, body);
    assert KeyAccepts(S, 0, body, NoEmail) && KeyAccepts(S, 1, body, NoEmail) && KeyAccepts(S, 2, body, NoEmail);
    assert KeyAccepts(S, 3, body, NoEmail) && KeyAccepts(S, 4, body, NoEmail) && KeyAccepts(S, 5, body, NoEmail);
    assert KeyAccepts(S, 6, body, NoEmail) && KeyAccepts(S, 7, body, NoEmail);
    assert KeyAccepts(S, 8, body, NoEmail) && KeyAccepts(S, 9, body, NoEmail);
  }

  lemma ProductBodyAccepted(S: seq<Key>, required: bool, body: Body)
    requires S == (if required then AddProductSchema else UpdateProductSchema)
    requires ProductBodyOk(body, required)
    ensures Accepts(S, body, NoEmail)
  {
    ProductSchemaNames(S);
    ProductKeyRules(S, required, body);
    forall i | 0 <= i < |S| ensures KeyAccepts(S, i, body, NoEmail) {
      if i < 5 {
        assert i == 0 || i == 1 || i == 2 || i == 3 || i == 4;
      } else {
        assert i == 5 || i == 6 || i == 7 || i == 8 || i == 9;
      }
    }
  }

  /** `validateAddProduct` accepts exactly the bodies with every required field present and every field within its rule. */
  lemma ValidateAddProductMeaning(body: Body)
    ensures ValidateAddProduct(body).Pass? ==> ProductBodyOk(body, true)
    ensures ProductBodyOk(body, true) ==> ValidateAddProduct(body).Pass?
  {
    ProductValidatorRules(AddProductSchema, true, body);
  }

  /** `validateUpdateProduct` accepts exactly the bodies whose present fields are within their rules. */
  lemma ValidateUpdateProductMeaning(body: Body)
    ensures ValidateUpdateProduct(body).Pass? ==> ProductBodyOk(body, false)
    ensures ProductBodyOk(body, false) ==> ValidateUpdateProduct(body).Pass?
  {
    ProductValidatorRules(UpdateProductSchema, false, body);
  }

  /**
   * The update validator holds a present field to the same rule as the add validator:
   * whatever add accepts, update accepts, and a body update accepts is accepted by add
   * as soon as the fields add requires are all present.
   */
  lemma UpdateRulesAreAddRules(body: Body)
    ensures ValidateAddProduct(body).Pass? ==> ValidateUpdateProduct(body).Pass?
    ensures ValidateUpdateProduct(body).Pass? && HasRequiredProductKeys(body) ==> ValidateAddProduct(body).Pass?
  {
    ValidateAddProductMeaning(body);
    ValidateUpdateProductMeaning(body);
    if ProductBodyOk(body, true) {
      RequiredOnlyAddsPresence(body, true);
    }
    if ProductBodyOk(body, false) && HasRequiredProductKeys(body) {
      RequiredOnlyAddsPresence(body, false);
    }
  }

  /** The two readings of `ProductBodyOk` differ only in whether the required keys must be present. */
  lemma RequiredOnlyAddsPresence(body: Body, required: bool)
    requires ProductBodyOk(body, required)
    ensures ProductBodyOk(body, false)
    ensures HasRequiredProductKeys(body) ==> ProductBodyOk(body, true)
  {
  }

  /**
   * Neither validator compares `discountPrice` with `price`: replacing the discount of an
   * accepted body by any number in Joi's safe range keeps it accepted.
   */
  lemma DiscountNotComparedByValidators(body: Body, d: real)
    requires IsSafeNumber(d)
    ensures ValidateAddProduct(body).Pass? ==> ValidateAddProduct(body["discountPrice" := Num(d)]).Pass?
    ensures ValidateUpdateProduct(body).Pass? ==> ValidateUpdateProduct(body["discountPrice" := Num(d)]).Pass?
  {
    var b := body["discountPrice" := Num(d)];
    if ValidateAddProduct(body).Pass? {
      ValidateAddProductMeaning(body);
      AnyDiscountKeepsRules(body, true, d);
      ValidateAddProductMeaning(b);
    }
    if ValidateUpdateProduct(body).Pass? {
      ValidateUpdateProductMeaning(body);
      AnyDiscountKeepsRules(body, false, d);
      ValidateUpdateProductMeaning(b);
    }
  }

  /** The comparison happens at save: a product built with a discount not below its price is rejected by the schema. */
  lemma DiscountComparedAtSave(body: Body, d: real, id: string)
    ensures d >= NumberOf(Get(body, "price")) ==> !ProductSchemaValid(NewProduct(id, body["discountPrice" := Num(d)]))
  {
    var b := body["discountPrice" := Num(d)];
    assert Get(b, "price") == Get(body, "price");
    assert Get(b, "discountPrice") == Num(d);
  }

  lemma AnyDiscountKeepsRules(body: Body, required: bool, d: real)
    requires ProductBodyOk(body, required) && IsSafeNumber(d)
    ensures ProductBodyOk(body["discountPrice" := Num(d)], required)
  {
    var b := body["discountPrice" := Num(d)];
    assert Get(b, "title") == Get(body, "title") && Get(b, "price") == Get(body, "price");
    assert Get(b, "imageUrl") == Get(body, "imageUrl") && Get(b, "description") == Get(body, "description");
    assert Get(b, "features") == Get(body, "features") && Get(b, "tags") == Get(body, "tags");
    assert Get(b, "category") == Get(body, "category");
    assert Get(b, "whatsappNumber") == Get(body, "whatsappNumber");
    assert Get(b, "telegramNumber") == Get(body, "telegramNumber");
    assert b.Keys == body.Keys + {"discountPrice"};
  }
}
