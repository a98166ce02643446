/** `models/order.js`: the transaction-id generator, the Order record and its schema, and `validateOrder`. */
module OrderModel {
  import opened Base
  import opened Js
  import opened Joi
  import opened Mongo

  /** The 62 characters a transaction id is drawn from. */
  const Alphabet: string := "ABCDEFGHIJKLMNOPQRSTUVWXYZabcdefghijklmnopqrstuvwxyz0123456789"

  /** The length of a generated transaction id. */
  const TransactionIdLength: nat := 8

  /** A value `Math.random()` can return. */
  predicate IsDraw(x: real)
  {
    0.0 <= x < 1.0
  }

  predicate AllDraws(draws: seq<real>)
  {
    forall i :: 0 <= i < |draws| ==> IsDraw(draws[i])
  }

  /** `chars.charAt(Math.floor(draw * chars.length))`: the character at the index the draw scales to. */
  function CharOf(draw: real): (c: char)
    requires IsDraw(draw)
    ensures c in Alphabet
    ensures c == Alphabet[(draw * 62.0).Floor]
  {
    var k := (draw * 62.0).Floor;
    assert 0 <= k < 62;
    Alphabet[k]
  }

  /** The id the generator builds from a sequence of draws: one alphabet character per draw, in order. */
  function TransactionIdOf(draws: seq<real>): (r: string)
    requires AllDraws(draws)
    ensures |r| == |draws|
    ensures forall i :: 0 <= i < |r| ==> r[i] in Alphabet
  {
    if draws == [] then "" else TransactionIdOf(draws[..|draws| - 1]) + [CharOf(draws[|draws| - 1])]
  }

  /** Each character of the id is the character of the draw at the same position. */
  lemma {:induction false} TransactionIdChars(draws: seq<real>)
    requires AllDraws(draws)
    ensures forall i :: 0 <= i < |draws| ==> TransactionIdOf(draws)[i] == CharOf(draws[i])
  {
    if draws != [] {
      var front := draws[..|draws| - 1];
      TransactionIdChars(front);
      assert forall i :: 0 <= i < |front| ==> front[i] == draws[i];
    }
  }

  /** `generateTransactionId()`, with the eight values of `Math.random()` it consumes given as `draws`. */
  method GenerateTransactionId(draws: seq<real>) returns (result: string)
    requires |draws| == TransactionIdLength && AllDraws(draws)
    ensures |result| == TransactionIdLength
    ensures forall i :: 0 <= i < |result| ==> result[i] in Alphabet
    ensures result == TransactionIdOf(draws)
  {
    result := "";
    var i := 0;
    while i < TransactionIdLength
      invariant 0 <= i <= TransactionIdLength
      invariant result == TransactionIdOf(draws[..i])
    {
      assert draws[..i + 1][..i] == draws[..i];
      result := result + [CharOf(draws[i])];
      i := i + 1;
    }
    assert draws[..i] == draws;
  }

  /** Every string over the alphabet is the id of some draws: the generator can produce any of the 62^8 ids. */
  lemma {:induction false} EveryIdReachable(id: string) returns (draws: seq<real>)
    requires forall i :: 0 <= i < |id| ==> id[i] in Alphabet
    ensures AllDraws(draws) && |draws| == |id|
    ensures TransactionIdOf(draws) == id
  {
    if id == [] {
      draws := [];
    } else {
      var n := |id| - 1;
      var front := EveryIdReachable(id[..n]);
      var k :| 0 <= k < |Alphabet| && Alphabet[k] == id[n];
      var x := k as real / 62.0;
      assert (x * 62.0).Floor == k;
      draws := front + [x];
      assert draws[..n] == front;
      assert id == id[..n] + [id[n]];
    }
  }

  /** `discountPrice` of a stored order: unset, stored as null, or an amount. */
  datatype Discount = Unset | NullDiscount | Amount(value: real)

  datatype ShippingAddress = ShippingAddress(
    firstName: string,
    lastName: string,
    email: string,
    address: Option<string>,
    phoneNumber: Option<string>)

  datatype Order = Order(
    id: string,
    price: real,
    discountPrice: Discount,
    user: string,
    payment: string,
    shippingAddress: ShippingAddress,
    transactionId: string,
    paymentTnxID: string)

  function OrderId(o: Order): string { o.id }

  function TransactionId(o: Order): string { o.transactionId }

  /**
   * The custom validator `value < this.price` on `discountPrice`. Mongoose skips custom
   * validators only for an unset path; a stored null is compared as JavaScript does,
   * as the number 0.
   */
  predicate OrderDiscountOk(o: Order)
  {
    match o.discountPrice
    case Unset => true
    case NullDiscount => 0.0 < o.price
    case Amount(d) => d < o.price
  }

  /** What `order.save()` checks: the price bound, the discount validator, the ObjectId user and the required texts. */
  predicate OrderSchemaValid(o: Order)
  {
    && o.price >= 0.0
    && OrderDiscountOk(o)
    && IsId(o.user)
    && o.payment != ""
    && o.shippingAddress.firstName != ""
    && o.shippingAddress.lastName != ""
    && o.shippingAddress.email != ""
    && o.transactionId != ""
    && o.paymentTnxID != ""
  }

  /** What the collection holds: schema-valid orders with distinct ids and, by the unique index, distinct transaction ids. */
  predicate OrdersOk(orders: seq<Order>)
  {
    && (forall i :: 0 <= i < |orders| ==> IsId(orders[i].id) && OrderSchemaValid(orders[i]))
    && UniqueBy(orders, OrderId)
    && UniqueBy(orders, TransactionId)
  }

  const ShippingAddressSchema: seq<Key> := [
    Key("firstName", Text(0, None, Plain), true, false),
    Key("lastName", Text(0, None, Plain), true, false),
    Key("email", Text(0, None, Email), true, false),
    Key("address", Text(0, None, Plain), false, false),
    Key("phoneNumber", Text(0, None, Plain), false, false)
  ]

  const OrderSchema: seq<Key> := [
    Key("price", Number(Some(0.0), None), true, false),
    Key("discountPrice", Number(Some(0.0), Some("price")), false, true),
    Key("user", Text(0, None, Plain), true, false),
    Key("payment", Text(0, None, Plain), true, false),
    Key("paymentTnxID", Text(0, None, Plain), true, false),
    Key("shippingAddress", Record(ShippingAddressSchema), true, false)
  ]

  function ValidateOrder(body: Body, isEmail: string -> bool): Verdict
  {
    Validate(OrderSchema, body, isEmail)
  }

  /** A non-empty text, as `Joi.string()` requires. */
  predicate IsText(v: JsValue)
  {
    v.Str? && v.s != ""
  }

  /** The discount rule of `validateOrder`: absent, null, or a number from 0 up to but excluding the price. */
  predicate OrderDiscountFieldOk(body: Body)
  {
    var d := Get(body, "discountPrice");
    || d == Undefined
    || d == Null
    || (&& AsNumber(d).Some? && IsSafeNumber(AsNumber(d).value) && AsNumber(Get(body, "price")).Some?
        && 0.0 <= AsNumber(d).value < AsNumber(Get(body, "price")).value)
  }

  /** The nested `shippingAddress` rule: first and last name and an email-shaped email required, address and phone optional. */
  predicate ShippingAddressOk(fields: Body, isEmail: string -> bool)
  {
    && IsText(Get(fields, "firstName"))
    && IsText(Get(fields, "lastName"))
    && IsText(Get(fields, "email")) && isEmail(Get(fields, "email").s)
    && (Get(fields, "address") == Undefined || IsText(Get(fields, "address")))
    && (Get(fields, "phoneNumber") == Undefined || IsText(Get(fields, "phoneNumber")))
    && fields.Keys <= {"firstName", "lastName", "email", "address", "phoneNumber"}
  }

  /**
   * `validateOrder` accepts exactly: a price that is a number at least 0; the discount rule;
   * non-empty `user`, `payment` and `paymentTnxID`; a `shippingAddress` object obeying its
   * rule; no other key.
   */
  predicate OrderBodyOk(body: Body, isEmail: string -> bool)
  {
    && AsNumber(Get(body, "price")).Some? && IsSafeNumber(AsNumber(Get(body, "price")).value)
    && AsNumber(Get(body, "price")).value >= 0.0
    && OrderDiscountFieldOk(body)
    && IsText(Get(body, "user"))
    && IsText(Get(body, "payment"))
    && IsText(Get(body, "paymentTnxID"))
    && Get(body, "shippingAddress").Obj? && ShippingAddressOk(Get(body, "shippingAddress").fields, isEmail)
    && body.Keys <= {"price", "discountPrice", "user", "payment", "paymentTnxID", "shippingAddress"}
  }

  lemma ShippingAddressMeaning(fields: Body, isEmail: string -> bool)
    ensures Accepts(ShippingAddressSchema, fields, isEmail) ==> ShippingAddressOk(fields, isEmail)
    ensures ShippingAddressOk(fields, isEmail) ==> Accepts(ShippingAddressSchema, fields, isEmail)
  {
    var S := ShippingAddressSchema;
    assert Names(S) == {"firstName", "lastName", "email", "address", "phoneNumber"} by {
      assert S[0].name == "firstName" && S[1].name == "lastName" && S[2].name == "email";
      assert S[3].name == "address" && S[4].name == "phoneNumber";
    }
    assert KeyAccepts(S, 0, fields, isEmail) == IsText(Get(fields, "firstName"));
    assert KeyAccepts(S, 1, fields, isEmail) == IsText(Get(fields, "lastName"));
    assert KeyAccepts(S, 2, fields, isEmail) == (IsText(Get(fields, "email")) && isEmail(Get(fields, "email").s));
    assert KeyAccepts(S, 3, fields, isEmail) == (Get(fields, "address") == Undefined || IsText(Get(fields, "address")));
    assert KeyAccepts(S, 4, fields, isEmail) == (Get(fields, "phoneNumber") == Undefined || IsText(Get(fields, "phoneNumber")));
    if ShippingAddressOk(fields, isEmail) {
      forall i | 0 <= i < |S| ensures KeyAccepts(S, i, fields, isEmail) {
        assert i == 0 || i == 1 || i == 2 || i == 3 || i == 4;
      }
    }
  }

  /** The key rules of `validateOrder`, one by one. */
  lemma OrderKeyRules(body: Body, isEmail: string -> bool)
    ensures |OrderSchema| == 6
    ensures KeyAccepts(OrderSchema, 0, body, isEmail) ==
      (AsNumber(Get(body, "price")).Some? && IsSafeNumber(AsNumber(Get(body, "price")).value) && AsNumber(Get(body, "price")).value >= 0.0)
    ensures KeyAccepts(OrderSchema, 1, body, isEmail) == OrderDiscountFieldOk(body)
    ensures KeyAccepts(OrderSchema, 2, body, isEmail) == IsText(Get(body, "user"))
    ensures KeyAccepts(OrderSchema, 3, body, isEmail) == IsText(Get(body, "payment"))
    ensures KeyAccepts(OrderSchema, 4, body, isEmail) == IsText(Get(body, "paymentTnxID"))
    ensures KeyAccepts(OrderSchema, 5, body, isEmail) ==
      (Get(body, "shippingAddress").Obj? && ShippingAddressOk(Get(body, "shippingAddress").fields, isEmail))
  {
    var address := Get(body, "shippingAddress");
    if address.Obj? {
      ShippingAddressMeaning(address.fields, isEmail);
    }
  }

  lemma OrderSchemaNames()
    ensures Names(OrderSchema) == {"price", "discountPrice", "user", "payment", "paymentTnxID", "shippingAddress"}
  {
    var S := OrderSchema;
    assert S[0].name == "price" && S[1].name == "discountPrice" && S[2].name == "user";
    assert S[3].name == "payment" && S[4].name == "paymentTnxID" && S[5].name == "shippingAddress";
  }

  lemma AcceptedOrderBody(body: Body, isEmail: string -> bool)
    requires Accepts(OrderSchema, body, isEmail)
    ensures OrderBodyOk(body, isEmail)
  {
    var S := OrderSchema;
    OrderSchemaNames();
    OrderKeyRules(body, isEmail);
    assert KeyAccepts(S, 0, body, isEmail) && KeyAccepts(S, 1, body, isEmail) && KeyAccepts(S, 2, body, isEmail);
    assert KeyAccepts(S, 3, body, isEmail) && KeyAccepts(S, 4, body, isEmail) && KeyAccepts(S, 5, body, isEmail);
  }

  lemma OrderBodyAccepted(body: Body, isEmail: string -> bool)
    requires OrderBodyOk(body, isEmail)
    ensures Accepts(OrderSchema, body, isEmail)
  {
    var S := OrderSchema;
    OrderSchemaNames();
    OrderKeyRules(body, isEmail);
    forall i | 0 <= i < |S| ensures KeyAccepts(S, i, body, isEmail) {
      assert i == 0 || i == 1 || i == 2 || i == 3 || i == 4 || i == 5;
    }
  }

  /** `validateOrder` accepts exactly the bodies that obey every rule of its schema and carry no other key. */
  lemma ValidateOrderMeaning(body: Body, isEmail: string -> bool)
    ensures ValidateOrder(body, isEmail).Pass? ==> OrderBodyOk(body, isEmail)
    ensures OrderBodyOk(body, isEmail) ==> ValidateOrder(body, isEmail).Pass?
  {
    ValidateMeaning(OrderSchema, body, isEmail);
    if Accepts(OrderSchema, body, isEmail) {
      AcceptedOrderBody(body, isEmail);
    }
    if OrderBodyOk(body, isEmail) {
      OrderBodyAccepted(body, isEmail);
    }
  }
}
