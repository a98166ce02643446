/** `models/category.js`: the Category record, its Mongoose schema and `validateCategory`. */
module CategoryModel {
  import opened Base
  import opened Js
  import opened Joi
  import opened Mongo

  datatype Category = Category(id: string, name: string)

  function CategoryId(c: Category): string { c.id }

  function CategoryName(c: Category): string { c.name }

  /** `categorySchema.name`: required, `minlength: 1`, `maxlength: 255`. */
  predicate NameOk(name: string)
  {
    1 <= |name| <= 255
  }

  /** What the collection holds: schema-valid categories with distinct ids and, by the unique index, distinct names. */
  predicate CategoriesOk(categories: seq<Category>)
  {
    && (forall i :: 0 <= i < |categories| ==> IsId(categories[i].id) && NameOk(categories[i].name))
    && UniqueBy(categories, CategoryId)
    && UniqueBy(categories, CategoryName)
  }

  const CategorySchema: seq<Key> := [Key("name", Text(1, Some(255), Plain), true, false)]

  /** `validateCategory(body)`; the schema has no email rule, so no email check is supplied. */
  function ValidateCategory(body: Body): Verdict
  {
    Validate(CategorySchema, body, NoEmail)
  }

  /** `validateCategory` accepts exactly a body whose only key is `name`, holding a text of 1 to 255 characters. */
  lemma ValidateCategoryMeaning(body: Body)
    ensures ValidateCategory(body).Pass? ==> Get(body, "name").Str? && NameOk(Get(body, "name").s) && body.Keys <= {"name"}
    ensures Get(body, "name").Str? && NameOk(Get(body, "name").s) && body.Keys <= {"name"} ==> ValidateCategory(body).Pass?
    ensures ValidateCategory(body).Reject? && "name" !in body ==> ValidateCategory(body) == Reject(["name"])
  {
    ValidateMeaning(CategorySchema, body, NoEmail);
    assert Names(CategorySchema) == {"name"} by {
      assert CategorySchema[0].name == "name";
    }
    assert KeyAccepts(CategorySchema, 0, body, NoEmail) <==>
      TextField(body, "name", true, 1, Some(255), Plain, NoEmail);
  }

  /** The Joi bounds and the schema bounds on a name coincide: a name passes `validateCategory` iff it fits the schema. */
  lemma NameBoundsAgree(name: string)
    ensures ValidateCategory(map["name" := Str(name)]).Pass? <==> NameOk(name)
  {
    ValidateCategoryMeaning(map["name" := Str(name)]);
  }

  /** At the boundaries: names of 1 and 255 characters are accepted, of 0 and 256 rejected. */
  lemma NameBoundaries(name: string)
    ensures |name| == 1 || |name| == 255 ==> ValidateCategory(map["name" := Str(name)]).Pass?
    ensures |name| == 0 || |name| == 256 ==> ValidateCategory(map["name" := Str(name)]) == Reject(["name"])
  {
    NameBoundsAgree(name);
    var body := map["name" := Str(name)];
    if !NameOk(name) {
      ValidateMeaning(CategorySchema, body, NoEmail);
    }
  }
}
