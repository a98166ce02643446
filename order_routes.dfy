/**
 * `routes/order.js`: create an order from the picked fields of the body with a generated
 * transaction id, get one by id, list all, and list a user's orders.
 */
module OrderRoutes {
  import opened Base
  import opened Js
  import opened Joi
  import opened Mongo
  import opened UserModel
  import opened OrderModel
  import opened Database

  /** `populate("user", "name email")`: the referenced user's id, name and email. */
  datatype UserSummary = UserSummary(id: string, name: string, email: string)

  /** An order as the handlers send it, with `user` populated (none when the user no longer exists). */
  datatype OrderView = OrderView(order: Order, user: Option<UserSummary>)

  function ViewOrder(o: Order, users: seq<User>): (v: OrderView)
    ensures v.order == o
    ensures v.user.Some? <==> exists u :: u in users && u.id == o.user
    ensures v.user.Some? ==> exists u :: u in users && v.user.value == UserSummary(u.id, u.name, u.email) && u.id == o.user
  {
    match Find(users, UserId, o.user)
    case None => OrderView(o, None)
    case Some(i) => OrderView(o, Some(UserSummary(users[i].id, users[i].name, users[i].email)))
  }

  function ViewOrders(orders: seq<Order>, users: seq<User>): (r: seq<OrderView>)
    ensures |r| == |orders|
    ensures forall i :: 0 <= i < |r| ==> r[i] == ViewOrder(orders[i], users)
  {
    seq(|orders|, i requires 0 <= i < |orders| => ViewOrder(orders[i], users))
  }

  /** The `discountPrice` Mongoose stores: unset when absent, null when null, otherwise the cast number. */
  function DiscountOf(v: JsValue): (d: Discount)
    ensures d == Unset <==> v == Undefined
    ensures d == NullDiscount <==> v == Null
  {
    if v == Undefined then Unset else if v == Null then NullDiscount else Amount(NumberOf(v))
  }

  /**
   * `new Order(_.pick(req.body, [price, discountPrice, user, payment, shippingAddress,
   * paymentTnxID]))` with `transactionId` from its default. A `user` that is no ObjectId
   * fails the cast and is held as "", which no ObjectId equals, so the save rejects it.
   */
  function BuildOrder(id: string, body: Body, transactionId: string): (o: Order)
    ensures o.id == id && o.transactionId == transactionId
    ensures o.price == NumberOf(Get(body, "price")) && o.discountPrice == DiscountOf(Get(body, "discountPrice"))
    ensures o.payment == TextOf(Get(body, "payment")) && o.paymentTnxID == TextOf(Get(body, "paymentTnxID"))
    ensures CastValue(Get(body, "user")).Some? ==> o.user == CastValue(Get(body, "user")).value
    ensures CastValue(Get(body, "user")).None? ==> !IsId(o.user)
  {
    var address := Get(body, "shippingAddress");
    var fields := if address.Obj? then address.fields else map[];
    Order(
      id,
      NumberOf(Get(body, "price")),
      DiscountOf(Get(body, "discountPrice")),
      match CastValue(Get(body, "user")) case Some(u) => u case None => "",
      TextOf(Get(body, "payment")),
      ShippingAddress(
        TextOf(Get(fields, "firstName")),
        TextOf(Get(fields, "lastName")),
        TextOf(Get(fields, "email")),
        OptionalText(Get(fields, "address")),
        OptionalText(Get(fields, "phoneNumber"))),
      transactionId,
      TextOf(Get(body, "paymentTnxID")))
  }

  /**
   * The reply and the order collection after `POST /`, where `draws` are the eight values
   * of `Math.random()` the transaction-id default consumes. A save that fails (schema,
   * cast, or a transaction id already taken) leaves the handler.
   */
  function CreateOrderOutcome(orders: seq<Order>, users: seq<User>, body: Body, isEmail: string -> bool, draws: seq<real>, newId: string):
    (out: (Reply<OrderView>, seq<Order>))
    requires |draws| == TransactionIdLength && AllDraws(draws)
    ensures !out.0.Ok? ==> out.1 == orders
    ensures ValidateOrder(body, isEmail).Reject? ==> out.0 == Invalid(ValidateOrder(body, isEmail).path)
    ensures out.0.Ok? ==>
      && ValidateOrder(body, isEmail).Pass?
      && out.0.data.order == BuildOrder(newId, body, TransactionIdOf(draws))
      && out.0.data == ViewOrder(out.0.data.order, users)
      && out.1 == orders + [out.0.data.order]
    ensures out.0.Ok? <==>
      && ValidateOrder(body, isEmail).Pass?
      && var o := BuildOrder(newId, body, TransactionIdOf(draws));
        OrderSchemaValid(o) && Find(orders, TransactionId, o.transactionId).None?
    ensures out.0 == Thrown <==>
      && ValidateOrder(body, isEmail).Pass?
      && var o := BuildOrder(newId, body, TransactionIdOf(draws));
        !OrderSchemaValid(o) || Find(orders, TransactionId, o.transactionId).Some?
  {
    match ValidateOrder(body, isEmail)
    case Reject(path) => (Invalid(path), orders)
    case Pass =>
      var o := BuildOrder(newId, body, TransactionIdOf(draws));
      if !OrderSchemaValid(o) || Find(orders, TransactionId, o.transactionId).Some? then (Thrown, orders)
      else (Ok(ViewOrder(o, users)), orders + [o])
  }

  /** Storing a schema-valid order under a fresh id and a fresh transaction id keeps the collection well-formed. */
  lemma OrdersOkAppend(orders: seq<Order>, o: Order)
    requires OrdersOk(orders)
    requires IsId(o.id) && OrderSchemaValid(o)
    requires Find(orders, OrderId, o.id).None? && Find(orders, TransactionId, o.transactionId).None?
    ensures OrdersOk(orders + [o])
  {
    AppendUnique(orders, OrderId, o);
    AppendUnique(orders, TransactionId, o);
    var r := orders + [o];
    forall i | 0 <= i < |r| ensures IsId(r[i].id) && OrderSchemaValid(r[i]) {
      if i < |orders| { assert r[i] == orders[i]; }
    }
  }

  lemma CreateOrderKeepsOrdersOk(orders: seq<Order>, users: seq<User>, body: Body, isEmail: string -> bool, draws: seq<real>, newId: string)
    requires |draws| == TransactionIdLength && AllDraws(draws)
    requires OrdersOk(orders)
    requires IsId(newId) && Find(orders, OrderId, newId).None?
    ensures OrdersOk(CreateOrderOutcome(orders, users, body, isEmail, draws, newId).1)
  {
    var out := CreateOrderOutcome(orders, users, body, isEmail, draws, newId);
    if out.0.Ok? {
      OrdersOkAppend(orders, out.0.data.order);
    }
  }

  /**
   * `POST /`: validate the body, build the order (its transaction id generated from
   * `draws`), save it, then re-read it by its id with the user populated and send that.
   */
  method CreateOrder(db: Db, body: Body, isEmail: string -> bool, draws: seq<real>, newId: string) returns (reply: Reply<OrderView>)
    requires db.Valid()
    requires |draws| == TransactionIdLength && AllDraws(draws)
    requires IsId(newId) && Find(db.orders, OrderId, newId).None?
    modifies db`orders
    ensures db.Valid()
    ensures (reply, db.orders) == CreateOrderOutcome(old(db.orders), db.users, body, isEmail, draws, newId)
  {
    CreateOrderKeepsOrdersOk(db.orders, db.users, body, isEmail, draws, newId);
    var verdict := ValidateOrder(body, isEmail);
    if verdict.Reject? {
      return Invalid(verdict.path);
    }
    var transactionId := GenerateTransactionId(draws);
    var order := BuildOrder(newId, body, transactionId);
    if !OrderSchemaValid(order) || Find(db.orders, TransactionId, transactionId).Some? {
      return Thrown;
    }
    FindAppend(db.orders, OrderId, order);
    db.orders := db.orders + [order];
    var stored := Find(db.orders, OrderId, newId);
    reply := Ok(ViewOrder(db.orders[stored.value], db.users));
  }

  /** The created order keeps only the picked fields: a body naming a `transactionId` is rejected, so the id is always the generated one. */
  lemma TransactionIdNotFromBody(orders: seq<Order>, users: seq<User>, body: Body, isEmail: string -> bool, draws: seq<real>, newId: string)
    requires |draws| == TransactionIdLength && AllDraws(draws)
    requires Get(body, "transactionId") != Undefined
    ensures ValidateOrder(body, isEmail).Reject?
    ensures CreateOrderOutcome(orders, users, body, isEmail, draws, newId) == (Invalid(ValidateOrder(body, isEmail).path), orders)
  {
    ValidateOrderMeaning(body, isEmail);
    assert "transactionId" in body;
  }

  /**
   * A null discount passes `validateOrder` at any price, but at save the discount validator
   * compares it as 0 against the price: with price 0 the create fails at save.
   */
  lemma NullDiscountAtZeroPrice(orders: seq<Order>, users: seq<User>, body: Body, isEmail: string -> bool, draws: seq<real>, newId: string)
    requires |draws| == TransactionIdLength && AllDraws(draws)
    requires ValidateOrder(body - {"discountPrice"}, isEmail).Pass?
    requires Get(body, "price") == Num(0.0) && Get(body, "discountPrice") == Null
    ensures ValidateOrder(body, isEmail).Pass?
    ensures CreateOrderOutcome(orders, users, body, isEmail, draws, newId).0 == Thrown
  {
    var rest := body - {"discountPrice"};
    ValidateOrderMeaning(rest, isEmail);
    ValidateOrderMeaning(body, isEmail);
    forall k | k != "discountPrice" ensures Get(rest, k) == Get(body, k) { }
    assert OrderBodyOk(body, isEmail);
    var o := BuildOrder(newId, body, TransactionIdOf(draws));
    assert o.discountPrice == NullDiscount && o.price == 0.0;
  }

  /** `GET /:orderId`. */
  function GetOrder(orders: seq<Order>, users: seq<User>, orderId: string): (r: Reply<OrderView>)
    ensures CastId(orderId).None? ==> r == Fail(500, "Internal Server Error")
    ensures r == Fail(404, "Order not found") <==>
      CastId(orderId).Some? && forall o :: o in orders ==> o.id != CastId(orderId).value
    ensures r.Ok? <==> CastId(orderId).Some? && exists o :: o in orders && o.id == CastId(orderId).value
    ensures r.Ok? ==> (r.data.order in orders && Some(r.data.order.id) == CastId(orderId)
      && r.data == ViewOrder(r.data.order, users))
  {
    match CastId(orderId)
    case None => Fail(500, "Internal Server Error")
    case Some(id) =>
      match Find(orders, OrderId, id)
      case None => Fail(404, "Order not found")
      case Some(i) => Ok(ViewOrder(orders[i], users))
  }

  /** Fetching a stored order by its id returns that order, with its user. */
  lemma GetStoredOrder(orders: seq<Order>, users: seq<User>, i: nat)
    requires OrdersOk(orders) && i < |orders|
    ensures GetOrder(orders, users, orders[i].id) == Ok(ViewOrder(orders[i], users))
  {
    CastStoredId(orders[i].id);
    FindUnique(orders, OrderId, orders[i].id, i);
  }

  /** `GET /`: every order, in stored order, each with its user. */
  function ListOrders(orders: seq<Order>, users: seq<User>): (r: seq<OrderView>)
    ensures |r| == |orders|
    ensures forall i :: 0 <= i < |r| ==> r[i].order == orders[i]
    ensures forall i :: 0 <= i < |r| ==> (r[i].user.Some? <==> exists u :: u in users && u.id == orders[i].user)
    ensures forall i :: 0 <= i < |r| ==> r[i] == ViewOrder(orders[i], users)
  {
    ViewOrders(orders, users)
  }

  /** The orders placed by `id`, in stored order: `Order.find({ user: id })`. */
  function OrdersOf(orders: seq<Order>, id: string): (r: seq<Order>)
    ensures forall o :: o in r <==> o in orders && o.user == id
  {
    Where(orders, (o: Order) => o.user == id)
  }

  /**
   * `GET /user/:userId`: the user's orders, 404 when there are none; a `userId` that is
   * no ObjectId fails the query's cast, which the handler does not catch.
   */
  function OrdersForUser(orders: seq<Order>, users: seq<User>, userId: string): (r: Reply<seq<OrderView>>)
    ensures CastId(userId).None? <==> r == Thrown
    ensures r == Fail(404, "No orders found for this user") <==>
      CastId(userId).Some? && forall o :: o in orders ==> o.user != CastId(userId).value
    ensures r.Ok? <==> CastId(userId).Some? && exists o :: o in orders && o.user == CastId(userId).value
    ensures r.Ok? ==> CastId(userId).Some? && r.data == ViewOrders(OrdersOf(orders, CastId(userId).value), users)
  {
    match CastId(userId)
    case None => Thrown
    case Some(id) =>
      var mine := OrdersOf(orders, id);
      if |mine| == 0 then Fail(404, "No orders found for this user")
      else assert mine[0] in mine; Ok(ViewOrders(mine, users))
  }

  /** A successful reply lists exactly the user's orders: each sent order is theirs, and each of theirs is sent. */
  lemma OrdersForUserExact(orders: seq<Order>, users: seq<User>, userId: string)
    requires OrdersForUser(orders, users, userId).Ok?
    ensures var sent := OrdersForUser(orders, users, userId).data;
      forall o :: (exists i :: 0 <= i < |sent| && sent[i].order == o) <==> o in orders && Some(o.user) == CastId(userId)
  {
    var id := CastId(userId).value;
    var mine := OrdersOf(orders, id);
    var sent := ViewOrders(mine, users);
    forall o | o in orders && o.user == id ensures exists i :: 0 <= i < |sent| && sent[i].order == o {
      var i :| 0 <= i < |mine| && mine[i] == o;
      assert sent[i].order == o;
    }
  }
}
