/**
 * The MongoDB database the handlers share: one collection per model, each held in its
 * natural order. `Valid` is what the schemas and unique indexes guarantee of what is stored.
 */
module Database {
  import opened CategoryModel
  import opened ProductModel
  import opened OrderModel
  import opened UserModel

  class Db {
    var categories: seq<Category>
    var products: seq<Product>
    var orders: seq<Order>
    var users: seq<User>

    ghost predicate Valid()
      reads this
    {
      && CategoriesOk(categories)
      && ProductsOk(products)
      && OrdersOk(orders)
      && UsersOk(users)
    }

    constructor ()
      ensures Valid()
      ensures categories == [] && products == [] && orders == [] && users == []
    {
      categories := [];
      products := [];
      orders := [];
      users := [];
    }
  }
}
