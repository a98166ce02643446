/**
 * `routes/category.js`: the category listing with product counts, the products grouped
 * by category, and create, update, delete and get by id.
 */
module CategoryRoutes {
  import opened Base
  import opened Js
  import opened Joi
  import opened Mongo
  import opened CategoryModel
  import opened ProductModel
  import opened Database

  /** The products whose `category` is `id`, in stored order: `Product.find({ category: id })`. */
  function ProductsIn(products: seq<Product>, id: string): (r: seq<Product>)
    ensures forall p :: p in r <==> p in products && p.category == id
  {
    Where(products, (p: Product) => p.category == id)
  }

  /** One document of the `GET /` aggregation: the category, its `$lookup` products and their `$size`. */
  datatype CategoryListing = CategoryListing(category: Category, products: seq<Product>, productCount: nat)

  /** `GET /`: every category, in order, with the products that reference it and their count. */
  function ListCategories(categories: seq<Category>, products: seq<Product>): (r: seq<CategoryListing>)
    ensures |r| == |categories|
    ensures forall i :: 0 <= i < |r| ==> r[i].category == categories[i] && r[i].productCount == |r[i].products|
    ensures forall i :: 0 <= i < |r| ==>
      forall p :: p in r[i].products <==> p in products && p.category == categories[i].id
  {
    seq(|categories|, i requires 0 <= i < |categories| =>
      var ps := ProductsIn(products, categories[i].id);
      CategoryListing(categories[i], ps, |ps|))
  }

  /** The count of a listing is the number of stored products (positions in the collection) whose category is that category. */
  lemma ProductCountCountsReferences(categories: seq<Category>, products: seq<Product>, i: nat)
    requires i < |categories|
    ensures ListCategories(categories, products)[i].productCount ==
      |set j: nat | j < |products| && products[j].category == categories[i].id|
  {
    var keep := (p: Product) => p.category == categories[i].id;
    WhereCount(products, keep);
    assert Positions(products, keep) == set j: nat | j < |products| && products[j].category == categories[i].id;
  }

  /** One element of `GET /products-by-category`: the category's name and its products. */
  datatype CategoryGroup = CategoryGroup(category: string, products: seq<Product>)

  /** `GET /products-by-category`: one group per category, in category order. */
  function ProductsByCategory(categories: seq<Category>, products: seq<Product>): (r: seq<CategoryGroup>)
    ensures |r| == |categories|
    ensures forall i :: 0 <= i < |r| ==> r[i].category == categories[i].name
    ensures forall i :: 0 <= i < |r| ==>
      forall p :: p in r[i].products <==> p in products && p.category == categories[i].id
  {
    seq(|categories|, i requires 0 <= i < |categories| =>
      CategoryGroup(categories[i].name, ProductsIn(products, categories[i].id)))
  }

  /**
   * With distinct category ids, the groups partition the products that reference an
   * existing category: such a product is in the group of its category and in no other,
   * and a product whose category does not exist is in no group.
   */
  lemma GroupsPartitionProducts(categories: seq<Category>, products: seq<Product>, p: Product)
    requires CategoriesOk(categories)
    requires p in products
    ensures var r := ProductsByCategory(categories, products);
      forall i :: 0 <= i < |r| ==> (p in r[i].products <==> Find(categories, CategoryId, p.category) == Some(i))
    ensures var r := ProductsByCategory(categories, products);
      (exists i :: 0 <= i < |r| && p in r[i].products) <==> Find(categories, CategoryId, p.category).Some?
  {
    var r := ProductsByCategory(categories, products);
    forall i | 0 <= i < |r| && p in r[i].products
      ensures Find(categories, CategoryId, p.category) == Some(i)
    {
      FindUnique(categories, CategoryId, p.category, i);
    }
    if Find(categories, CategoryId, p.category).Some? {
      var i := Find(categories, CategoryId, p.category).value;
      assert p in r[i].products;
    }
  }

  /** The reply and the category collection after `POST /`. */
  function CreateCategoryOutcome(categories: seq<Category>, body: Body, newId: string): (out: (Reply<Category>, seq<Category>))
    ensures out.0.Ok? <==> ValidateCategory(body).Pass? && Find(categories, CategoryName, TextOf(Get(body, "name"))).None?
    ensures out.0.Ok? ==> out.0.data == Category(newId, TextOf(Get(body, "name"))) && out.1 == categories + [out.0.data]
    ensures !out.0.Ok? ==> out.1 == categories
    ensures ValidateCategory(body).Reject? ==> out.0 == Invalid(ValidateCategory(body).path)
  {
    match ValidateCategory(body)
    case Reject(path) => (Invalid(path), categories)
    case Pass =>
      var category := Category(newId, TextOf(Get(body, "name")));
      if Find(categories, CategoryName, category.name).Some? then (Thrown, categories)
      else (Ok(category), categories + [category])
  }

  /** A created category has the requested name within the schema bounds, so the collection stays valid. */
  lemma CreateCategoryKeepsCategoriesOk(categories: seq<Category>, body: Body, newId: string)
    requires CategoriesOk(categories)
    requires IsId(newId) && Find(categories, CategoryId, newId).None?
    ensures CategoriesOk(CreateCategoryOutcome(categories, body, newId).1)
  {
    if ValidateCategory(body).Pass? {
      ValidateCategoryMeaning(body);
    }
  }

  /**
   * `POST /`: validate, build the category from `name` alone, save. A duplicate name
   * violates the unique index and the rejection of `save` leaves the handler.
   */
  method CreateCategory(db: Db, body: Body, newId: string) returns (reply: Reply<Category>)
    requires db.Valid()
    requires IsId(newId) && Find(db.categories, CategoryId, newId).None?
    modifies db`categories
    ensures db.Valid()
    ensures (reply, db.categories) == CreateCategoryOutcome(old(db.categories), body, newId)
  {
    CreateCategoryKeepsCategoriesOk(db.categories, body, newId);
    var verdict := ValidateCategory(body);
    if verdict.Reject? {
      return Invalid(verdict.path);
    }
    var category := Category(newId, TextOf(Get(body, "name")));
    if Find(db.categories, CategoryName, category.name).Some? {
      return Thrown;
    }
    db.categories := db.categories + [category];
    reply := Ok(category);
  }

  /** The reply and the category collection after `PUT /:categoryId`. */
  function UpdateCategoryOutcome(categories: seq<Category>, categoryId: string, body: Body): (out: (Reply<Category>, seq<Category>))
    ensures CastId(categoryId).None? ==> out.0 == Fail(500, "Internal server error")
    ensures CastId(categoryId).Some? && Find(categories, CategoryId, CastId(categoryId).value).None? ==>
      out.0 == Fail(404, "Category not found")
    ensures (CastId(categoryId).Some? && Find(categories, CategoryId, CastId(categoryId).value).Some? &&
      ValidateCategory(body).Reject?) ==> out.0 == Invalid(ValidateCategory(body).path)
    ensures (CastId(categoryId).Some? && Find(categories, CategoryId, CastId(categoryId).value).Some? &&
      ValidateCategory(body).Pass? &&
      NameTakenByOther(categories, Find(categories, CategoryId, CastId(categoryId).value).value, TextOf(Get(body, "name"))))
      ==> out.0 == Fail(500, "Internal server error")
    ensures out.0.Ok? <==>
      && CastId(categoryId).Some? && Find(categories, CategoryId, CastId(categoryId).value).Some?
      && ValidateCategory(body).Pass?
      && !NameTakenByOther(categories, Find(categories, CategoryId, CastId(categoryId).value).value, TextOf(Get(body, "name")))
    ensures !out.0.Ok? ==> out.1 == categories
    ensures out.0.Ok? ==>
      var i := Find(categories, CategoryId, CastId(categoryId).value).value;
      && ValidateCategory(body).Pass?
      && out.0.data == categories[i].(name := TextOf(Get(body, "name")))
      && out.1 == categories[i := out.0.data]
  {
    match CastId(categoryId)
    case None => (Fail(500, "Internal server error"), categories)
    case Some(id) =>
      match Find(categories, CategoryId, id)
      case None => (Fail(404, "Category not found"), categories)
      case Some(i) =>
        match ValidateCategory(body)
        case Reject(path) => (Invalid(path), categories)
        case Pass =>
          var name := Get(body, "name");
          var stored := categories[i];
          var category := if Truthy(name) then stored.(name := TextOf(name)) else stored;
          if NameTakenByOther(categories, i, category.name) then (Fail(500, "Internal server error"), categories)
          else (Ok(category), categories[i := category])
  }

  /** Another category than the `i`-th already has the name: saving would violate the unique index. */
  predicate NameTakenByOther(categories: seq<Category>, i: nat, name: string)
  {
    exists j :: 0 <= j < |categories| && j != i && categories[j].name == name
  }

  /** An update keeps the id and gives the category a valid name no other category has, so the collection stays valid. */
  lemma UpdateCategoryKeepsCategoriesOk(categories: seq<Category>, categoryId: string, body: Body)
    requires CategoriesOk(categories)
    ensures CategoriesOk(UpdateCategoryOutcome(categories, categoryId, body).1)
  {
    var out := UpdateCategoryOutcome(categories, categoryId, body);
    if out.0.Ok? {
      ValidateCategoryMeaning(body);
      var i := Find(categories, CategoryId, CastId(categoryId).value).value;
      assert !NameTakenByOther(categories, i, out.0.data.name);
      var r := out.1;
      forall a, b | 0 <= a < b < |r| ensures r[a].id != r[b].id && r[a].name != r[b].name {
        if a != i && b != i {
          assert r[a] == categories[a] && r[b] == categories[b];
        }
      }
    }
  }

  /**
   * `PUT /:categoryId`: find, then validate, then assign the name and save. The order of
   * the checks makes a missing category a 404 even when the body is invalid.
   */
  method UpdateCategory(db: Db, categoryId: string, body: Body) returns (reply: Reply<Category>)
    requires db.Valid()
    modifies db`categories
    ensures db.Valid()
    ensures (reply, db.categories) == UpdateCategoryOutcome(old(db.categories), categoryId, body)
  {
    UpdateCategoryKeepsCategoriesOk(db.categories, categoryId, body);
    var id := CastId(categoryId);
    if id.None? {
      return Fail(500, "Internal server error");
    }
    var found := Find(db.categories, CategoryId, id.value);
    if found.None? {
      return Fail(404, "Category not found");
    }
    var verdict := ValidateCategory(body);
    if verdict.Reject? {
      return Invalid(verdict.path);
    }
    var category := db.categories[found.value];
    if Truthy(Get(body, "name")) {
      category := category.(name := TextOf(Get(body, "name")));
    }
    if NameTakenByOther(db.categories, found.value, category.name) {
      return Fail(500, "Internal server error");
    }
    db.categories := db.categories[found.value := category];
    reply := Ok(category);
  }

  /** The reply and the category collection after `DELETE /:categoryId`. */
  function DeleteCategoryOutcome(categories: seq<Category>, categoryId: string): (out: (Reply<()>, seq<Category>))
    ensures CastId(categoryId).None? ==> out == (Fail(500, "Internal Server Error"), categories)
    ensures CastId(categoryId).Some? && Find(categories, CategoryId, CastId(categoryId).value).None? ==>
      out == (Fail(404, "Category not found"), categories)
    ensures out.0.Ok? <==> CastId(categoryId).Some? && Find(categories, CategoryId, CastId(categoryId).value).Some?
  {
    match CastId(categoryId)
    case None => (Fail(500, "Internal Server Error"), categories)
    case Some(id) =>
      match Find(categories, CategoryId, id)
      case None => (Fail(404, "Category not found"), categories)
      case Some(_) => (Ok(()), DeleteFirst(categories, CategoryId, id))
  }

  /** A successful delete removes exactly the category with that id; every other category stays, and the collection stays valid. */
  lemma DeleteCategoryRemovesOnlyIt(categories: seq<Category>, categoryId: string)
    requires CategoriesOk(categories)
    ensures var out := DeleteCategoryOutcome(categories, categoryId);
      out.0.Ok? ==> forall c :: c in out.1 <==> c in categories && c.id != CastId(categoryId).value
    ensures CategoriesOk(DeleteCategoryOutcome(categories, categoryId).1)
  {
    match CastId(categoryId)
    case None =>
    case Some(id) =>
      DeleteFirstUnique(categories, CategoryId, id);
      DeleteFirstSubset(categories, CategoryId, CategoryName, id);
  }

  /** `DELETE /:categoryId`: only the category collection changes; products that referenced it are left as they are. */
  method DeleteCategory(db: Db, categoryId: string) returns (reply: Reply<()>)
    requires db.Valid()
    modifies db`categories
    ensures db.Valid()
    ensures (reply, db.categories) == DeleteCategoryOutcome(old(db.categories), categoryId)
    ensures db.products == old(db.products)
  {
    DeleteCategoryRemovesOnlyIt(db.categories, categoryId);
    var id := CastId(categoryId);
    if id.None? {
      return Fail(500, "Internal Server Error");
    }
    if Find(db.categories, CategoryId, id.value).None? {
      return Fail(404, "Category not found");
    }
    db.categories := DeleteFirst(db.categories, CategoryId, id.value);
    reply := Ok(());
  }

  /** `GET /:categoryId`. */
  function GetCategory(categories: seq<Category>, categoryId: string): (r: Reply<Category>)
    ensures CastId(categoryId).None? ==> r == Fail(500, "Internal Server Error")
    ensures r == Fail(404, "Category not found") <==>
      CastId(categoryId).Some? && forall c :: c in categories ==> c.id != CastId(categoryId).value
    ensures r.Ok? <==> CastId(categoryId).Some? && exists c :: c in categories && c.id == CastId(categoryId).value
    ensures r.Ok? ==> r.data in categories && Some(r.data.id) == CastId(categoryId)
  {
    match CastId(categoryId)
    case None => Fail(500, "Internal Server Error")
    case Some(id) =>
      match Find(categories, CategoryId, id)
      case None => Fail(404, "Category not found")
      case Some(i) => Ok(categories[i])
  }

  /** Fetching a stored category by its id returns that category. */
  lemma GetStoredCategory(categories: seq<Category>, i: nat)
    requires CategoriesOk(categories) && i < |categories|
    ensures GetCategory(categories, categories[i].id) == Ok(categories[i])
  {
    CastStoredId(categories[i].id);
    FindUnique(categories, CategoryId, categories[i].id, i);
  }
}
