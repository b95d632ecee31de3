/** The product schemas: bundles, the product record with its validation,
    reservation and webhook calls, and the payloads accepted by the create
    and update endpoints. Outbound HTTP calls are not performed: each
    operation returns the requests it would send, and the validator's reply
    is an input. */
module ProductSchemas {
  import opened Wrappers
  import opened Dicts

  datatype Error =
    | InvalidField(field: string)     // schema validation refused this field
    | Upstream(reason: string)        // the validation URL could not be fetched or decoded
    | MissingAttribute(name: string)  // the code read an attribute the schema does not declare

  // ---------------------------------------------------------------------
  // Bundle

  /** `Literal[0, 1, 2]`: the three display ranks of a bundle. */
  type BundleOrder = o: int | 0 <= o <= 2 witness 1

  const DefaultOrder: BundleOrder := 1
  const DefaultUnit: string := "unit"

  datatype Bundle = Bundle(asset: string, quota: Decimal, order: BundleOrder, unit: string)

  /** Building a bundle from client input: `order` and `unit` may be left
      out and then take their defaults; an order outside {0, 1, 2} is refused. */
  function NewBundle(asset: string, quota: Decimal, order: Option<int>, unit: Option<string>): (r: Result<Bundle, Error>)
    ensures r.Success? <==> order.None? || order.value in {0, 1, 2}
    ensures r.Failure? ==> r.error == InvalidField("order")
    ensures r.Success? ==> r.value.asset == asset && r.value.quota == quota
    ensures r.Success? && order.None? ==> r.value.order == 1
    ensures r.Success? && order.Some? ==> r.value.order == order.value
    ensures r.Success? && unit.None? ==> r.value.unit == "unit"
    ensures r.Success? && unit.Some? ==> r.value.unit == unit.value
  {
    match order
    case None => Success(Bundle(asset, quota, DefaultOrder, unit.GetOr(DefaultUnit)))
    case Some(o) =>
      if 0 <= o <= 2 then Success(Bundle(asset, quota, o, unit.GetOr(DefaultUnit)))
      else Failure(InvalidField("order"))
  }

  // ---------------------------------------------------------------------
  // Product

  datatype ItemType = SaasPackage | RetailProduct

  /** The fields `ProductSchema` declares. It declares no `quantity`. */
  datatype Product = Product(
    name: string,
    description: Option<string>,
    unitPrice: Decimal,
    currency: string,
    itemType: ItemType,
    productUrl: Option<string>,
    webhookUrl: Option<string>,
    reserveUrl: Option<string>,
    validationUrl: Option<string>,
    revenueShareId: Option<string>,
    taxId: Option<string>,
    merchant: Option<string>,
    planDuration: Option<int>,
    bundles: Option<seq<Bundle>>,
    variant: Option<map<string, string>>,
    extraData: Option<map<string, Value>>)

  /** An outbound call. A POST carries the full dump of the product. */
  datatype Request = Get(url: string) | Post(url: string, body: Product)

  /** The JSON body returned by the validation URL, reduced to the two keys
      that are read; a missing key and a JSON null are both `None`. */
  datatype ValidatorReply = ValidatorReply(price: Option<Decimal>, stockQuantity: Option<Decimal>)

  /** What a validation does: the requests it sends and its verdict, or the
      error that escaped it. */
  datatype Validation = Validation(requests: seq<Request>, verdict: Result<bool, Error>)

  /** `validate_product`, with the ordered quantity passed explicitly.
      `reply` is what the GET to the validation URL yields; it is only
      consulted when that URL is set. A failed fetch is not caught. A reply
      without a price does not equal the unit price, so it is refused. */
  function ValidateProduct(p: Product, quantity: Decimal, reply: Result<ValidatorReply, string>): (v: Validation)
    // no validation URL: valid, and nothing is sent
    ensures p.validationUrl.None? ==> v.requests == [] && v.verdict == Success(true)
    // otherwise exactly one GET, to that URL
    ensures p.validationUrl.Some? ==> v.requests == [Get(p.validationUrl.value)]
    // a failed fetch propagates; it is never read as approval
    ensures p.validationUrl.Some? && reply.Failure? ==> v.verdict == Failure(Upstream(reply.error))
    // the price must be present and equal, whatever the stock says
    ensures (p.validationUrl.Some? && reply.Success? && reply.value.price != Some(p.unitPrice))
      ==> v.verdict == Success(false)
    // price agrees and stock is not tracked: valid
    ensures (p.validationUrl.Some? && reply.Success? && reply.value.price == Some(p.unitPrice)
             && reply.value.stockQuantity.None?) ==> v.verdict == Success(true)
    // price agrees and stock is tracked: valid iff the stock covers the quantity
    ensures (p.validationUrl.Some? && reply.Success? && reply.value.price == Some(p.unitPrice)
             && reply.value.stockQuantity.Some?)
      ==> v.verdict == Success(reply.value.stockQuantity.value >= quantity)
  {
    match p.validationUrl
    case None => Validation([], Success(true))
    case Some(url) =>
      Validation([Get(url)],
        match reply
        case Failure(reason) => Failure(Upstream(reason))
        case Success(data) =>
          if data.price != Some(p.unitPrice) then Success(false)
          else if data.stockQuantity.None? then Success(true)
          else if data.stockQuantity.value < quantity then Success(false)
          else Success(true))
  }

  /** A product validates as purchasable exactly when no validator is
      configured, or the validator answered with the same price and either
      no stock figure or one that covers the quantity. */
  lemma ValidatedIff(p: Product, quantity: Decimal, reply: Result<ValidatorReply, string>)
    ensures ValidateProduct(p, quantity, reply).verdict == Success(true) <==>
              (|| p.validationUrl.None?
               || (reply.Success? && reply.value.price == Some(p.unitPrice)
                   && (reply.value.stockQuantity.None? || reply.value.stockQuantity.value >= quantity)))
  {
  }

  /** Asking for less never turns an accepted product into a refused one. */
  lemma ValidationMonotoneInQuantity(p: Product, q1: Decimal, q2: Decimal, reply: Result<ValidatorReply, string>)
    requires q1 <= q2
    requires ValidateProduct(p, q2, reply).verdict == Success(true)
    ensures ValidateProduct(p, q1, reply).verdict == Success(true)
  {
  }

  /** The reading in which only a present, different price refuses (a
      missing price falls through to the stock check). */
  function LenientVerdict(p: Product, quantity: Decimal, data: ValidatorReply): bool {
    (data.price.None? || data.price.value == p.unitPrice)
    && (data.stockQuantity.None? || data.stockQuantity.value >= quantity)
  }

  /** The code and the lenient reading disagree exactly on replies that
      carry no price but would pass the stock check. */
  lemma MissingPriceIsTheOnlyDivergence(p: Product, quantity: Decimal, data: ValidatorReply)
    requires p.validationUrl.Some?
    ensures ValidateProduct(p, quantity, Success(data)).verdict != Success(LenientVerdict(p, quantity, data))
      <==> data.price.None? && (data.stockQuantity.None? || data.stockQuantity.value >= quantity)
  {
  }

  /** The validator is configured, answered, agrees on the price and
      reports a stock figure: the comparison with the quantity runs. */
  predicate StockCheckReached(p: Product, reply: Result<ValidatorReply, string>) {
    && p.validationUrl.Some?
    && reply.Success?
    && reply.value.price == Some(p.unitPrice)
    && reply.value.stockQuantity.Some?
  }

  /** `validate_product` as declared: the schema has no `quantity`, so
      reaching the stock comparison reads a missing attribute. This assumes
      the schema class was built at all: `@field_validator("quantity")`
      names the undeclared field, and pydantic v2 refuses such a class when
      it is defined unless a base class declares the field (and then no
      attribute is missing). */
  function ValidateProductAsDeclared(p: Product, reply: Result<ValidatorReply, string>): (v: Validation)
    ensures StockCheckReached(p, reply) ==> v.requests == [Get(p.validationUrl.value)]
    ensures StockCheckReached(p, reply) ==> v.verdict == Failure(MissingAttribute("quantity"))
    ensures !StockCheckReached(p, reply) ==> forall q :: v == ValidateProduct(p, q, reply)
  {
    match p.validationUrl
    case None => Validation([], Success(true))
    case Some(url) =>
      Validation([Get(url)],
        match reply
        case Failure(reason) => Failure(Upstream(reason))
        case Success(data) =>
          if data.price != Some(p.unitPrice) then Success(false)
          else if data.stockQuantity.None? then Success(true)
          else Failure(MissingAttribute("quantity")))
  }

  /** A product with the given price and validation URL, a fixed name and
      currency, and every optional field None. */
  function SampleProduct(price: Decimal, validationUrl: Option<string>): (p: Product)
    ensures p.unitPrice == price && p.validationUrl == validationUrl
  {
    Product("widget", None, price, "USD", RetailProduct, None, None, None, validationUrl,
            None, None, None, None, None, None, None)
  }

  /** Validator scenarios: price 9.99 with stock 5 accepts quantity 3 and
      refuses quantity 10; price 8.00 or no price is refused; the first
      scenario on the code as declared reads the missing `quantity`. */
  lemma ValidatorScenarios()
    ensures var p := SampleProduct(9.99, Some("https://stock.example/validate"));
      && ValidateProduct(p, 3.0, Success(ValidatorReply(Some(9.99), Some(5.0)))).verdict == Success(true)
      && ValidateProduct(p, 10.0, Success(ValidatorReply(Some(9.99), Some(5.0)))).verdict == Success(false)
      && ValidateProduct(p, 3.0, Success(ValidatorReply(Some(8.00), Some(5.0)))).verdict == Success(false)
      && ValidateProduct(p, 3.0, Success(ValidatorReply(None, Some(5.0)))).verdict == Success(false)
      && ValidateProductAsDeclared(p, Success(ValidatorReply(Some(9.99), Some(5.0)))).verdict
           == Failure(MissingAttribute("quantity"))
  {
  }

  /** Shared shape of `reserve_product` and `webhook_product`: one POST of
      the product to `url` when it is set, nothing otherwise. */
  function PostIfSet(url: Option<string>, p: Product): (r: seq<Request>)
    ensures url.None? <==> r == []
    ensures url.Some? ==> r == [Post(url.value, p)]
  {
    match url
    case None => []
    case Some(u) => [Post(u, p)]
  }

  /** `reserve_product`: at most one request, a POST of the whole product to
      `reserve_url`, and only when that URL is set. */
  function ReserveProduct(p: Product): (r: seq<Request>)
    ensures |r| <= 1
    ensures r == [] <==> p.reserveUrl.None?
    ensures forall req | req in r :: req.Post? && p.reserveUrl == Some(req.url) && req.body == p
  {
    PostIfSet(p.reserveUrl, p)
  }

  /** `webhook_product`: at most one request, a POST of the whole product to
      `webhook_url`, and only when that URL is set. */
  function WebhookProduct(p: Product): (r: seq<Request>)
    ensures |r| <= 1
    ensures r == [] <==> p.webhookUrl.None?
    ensures forall req | req in r :: req.Post? && p.webhookUrl == Some(req.url) && req.body == p
  {
    PostIfSet(p.webhookUrl, p)
  }

  // ---------------------------------------------------------------------
  // Create and update payloads

  /** The fields of `ProductCreateSchema` and `ProductUpdateSchema`; the two
      classes declare the same fields with the same types and defaults. */
  datatype ProductPayload = ProductPayload(
    name: string,
    description: Option<string>,
    unitPrice: Decimal,
    currency: string,
    quantity: Decimal,
    variant: Option<map<string, string>>,
    webhookUrl: Option<string>,
    revenueShareId: Option<string>,
    taxId: Option<string>,
    merchant: Option<string>,
    metaData: Option<map<string, Value>>,
    data: Option<map<string, Value>>)

  type ProductCreate = ProductPayload
  type ProductUpdate = ProductPayload

  /** The names of the payload fields. */
  datatype PayloadField =
    | Name | Description | UnitPrice | Currency | Quantity | Variant
    | WebhookUrl | RevenueShareId | TaxId | Merchant | MetaData | Data

  /** The JSON key of a field. */
  function Key(f: PayloadField): string {
    match f
    case Name => "name"
    case Description => "description"
    case UnitPrice => "unit_price"
    case Currency => "currency"
    case Quantity => "quantity"
    case Variant => "variant"
    case WebhookUrl => "webhook_url"
    case RevenueShareId => "revenue_share_id"
    case TaxId => "tax_id"
    case Merchant => "merchant"
    case MetaData => "meta_data"
    case Data => "data"
  }

  /** The payload fields in declaration order, which is the order of a dump. */
  const PayloadFields: seq<PayloadField> := [
    Name, Description, UnitPrice, Currency, Quantity, Variant,
    WebhookUrl, RevenueShareId, TaxId, Merchant, MetaData, Data]

  /** The JSON keys of the payload. */
  function PayloadKeys(): (ks: seq<string>)
    ensures |ks| == |PayloadFields|
    ensures forall i | 0 <= i < |ks| :: ks[i] == Key(PayloadFields[i])
  {
    seq(|PayloadFields|, i requires 0 <= i < |PayloadFields| => Key(PayloadFields[i]))
  }

  /** Every field is listed once, and distinct fields have distinct keys. */
  lemma PayloadFieldsComplete(f: PayloadField, g: PayloadField)
    ensures f in PayloadFields
    ensures Key(f) == Key(g) ==> f == g
  {
  }

  /** No key appears twice among the payload's keys. */
  lemma PayloadKeysDistinct()
    ensures forall i, j | 0 <= i < j < |PayloadFields| :: Key(PayloadFields[i]) != Key(PayloadFields[j])
  {
    forall f: PayloadField, g: PayloadField ensures Key(f) == Key(g) ==> f == g {
      PayloadFieldsComplete(f, g);
    }
  }

  /** Fields of the product that the payloads do not expose. */
  const ProductOnlyKeys: seq<string> := [
    "item_type", "product_url", "reserve_url", "validation_url",
    "plan_duration", "bundles", "extra_data"]

  /** None of the product-only fields can be named in a payload. */
  lemma ProductOnlyKeysNotInPayload(f: PayloadField)
    ensures Key(f) !in ProductOnlyKeys
  {
  }

  const DefaultQuantity: Decimal := 1.0

  function OptionalText(o: Option<string>): Value {
    match o
    case None => Null
    case Some(s) => Str(s)
  }

  function OptionalObject(o: Option<map<string, Value>>): Value {
    match o
    case None => Null
    case Some(m) => Obj(m)
  }

  function OptionalTextMap(o: Option<map<string, string>>): Value {
    match o
    case None => Null
    case Some(m) => Obj(map k | k in m :: Str(m[k]))
  }

  /** The value a dump shows for field `f`; None becomes `Null`. */
  function FieldValue(p: ProductPayload, f: PayloadField): Value {
    match f
    case Name => Str(p.name)
    case Description => OptionalText(p.description)
    case UnitPrice => Num(p.unitPrice)
    case Currency => Str(p.currency)
    case Quantity => Num(p.quantity)
    case Variant => OptionalTextMap(p.variant)
    case WebhookUrl => OptionalText(p.webhookUrl)
    case RevenueShareId => OptionalText(p.revenueShareId)
    case TaxId => OptionalText(p.taxId)
    case Merchant => OptionalText(p.merchant)
    case MetaData => OptionalObject(p.metaData)
    case Data => OptionalObject(p.data)
  }

  /** `model_dump()`: every declared field, in declaration order, None
      values included. */
  function Dump(p: ProductPayload): (d: Dict)
    ensures Keys(d) == PayloadKeys()
    ensures DistinctKeys(d)
    ensures forall i | 0 <= i < |d| :: d[i].1 == FieldValue(p, PayloadFields[i])
  {
    PayloadKeysDistinct();
    seq(|PayloadFields|, i requires 0 <= i < |PayloadFields| => (Key(PayloadFields[i]), FieldValue(p, PayloadFields[i])))
  }

  /** The JSON types each field admits. `name`, `unit_price`, `currency` and
      `quantity` are not optional, so an explicit null is refused for them. */
  predicate WellTyped(f: PayloadField, v: Value) {
    match f
    case Name | Currency => v.Str?
    case UnitPrice | Quantity => v.Num?
    case Variant => v.Null? || (v.Obj? && forall e | e in v.entries :: v.entries[e].Str?)
    case MetaData | Data => v.Null? || v.Obj?
    case _ => v.Null? || v.Str?
  }

  /** The entry a body has for field `f`, if any. */
  function Field(body: map<string, Value>, f: PayloadField): Option<Value> {
    if Key(f) in body then Some(body[Key(f)]) else None
  }

  /** Whether the schema accepts what a body has for field `f`: only `name`
      and `unit_price` have no default and must be present. */
  predicate FieldAccepted(f: PayloadField, o: Option<Value>) {
    match o
    case None => f != Name && f != UnitPrice
    case Some(v) => WellTyped(f, v)
  }

  /** A body the payload schema accepts. Keys other than the payload fields
      do not matter. */
  predicate Admissible(body: map<string, Value>) {
    forall f: PayloadField :: FieldAccepted(f, Field(body, f))
  }

  /** What a field is when the body leaves it out. */
  function FieldDefault(f: PayloadField, defaultCurrency: string): Value {
    match f
    case Currency => Str(defaultCurrency)
    case Quantity => Num(DefaultQuantity)
    case _ => Null
  }

  // One reader per kind of field. Each takes the field (for the error) and
  // what the body has for it.

  /** A `str` field with no default. */
  function TextField(f: PayloadField, o: Option<Value>): (r: Result<string, Error>)
    ensures r.Success? <==> o.Some? && o.value.Str?
    ensures r.Success? ==> o == Some(Str(r.value))
    ensures r.Failure? ==> r.error == InvalidField(Key(f))
  {
    if o.Some? && o.value.Str? then Success(o.value.s) else Failure(InvalidField(Key(f)))
  }

  /** A `str` field with a default: left out means the default, an explicit
      null is refused. */
  function TextFieldOr(f: PayloadField, o: Option<Value>, default: string): (r: Result<string, Error>)
    ensures r.Success? <==> o.None? || o.value.Str?
    ensures r.Success? ==> Str(r.value) == o.GetOr(Str(default))
    ensures r.Failure? ==> r.error == InvalidField(Key(f))
  {
    if o.None? then Success(default) else TextField(f, o)
  }

  /** A `Decimal` field with no default. */
  function NumberField(f: PayloadField, o: Option<Value>): (r: Result<Decimal, Error>)
    ensures r.Success? <==> o.Some? && o.value.Num?
    ensures r.Success? ==> o == Some(Num(r.value))
    ensures r.Failure? ==> r.error == InvalidField(Key(f))
  {
    if o.Some? && o.value.Num? then Success(o.value.n) else Failure(InvalidField(Key(f)))
  }

  /** A `Decimal` field with a default. */
  function NumberFieldOr(f: PayloadField, o: Option<Value>, default: Decimal): (r: Result<Decimal, Error>)
    ensures r.Success? <==> o.None? || o.value.Num?
    ensures r.Success? ==> Num(r.value) == o.GetOr(Num(default))
    ensures r.Failure? ==> r.error == InvalidField(Key(f))
  {
    if o.None? then Success(default) else NumberField(f, o)
  }

  /** A `str | None` field: left out and null both mean None. */
  function MaybeTextField(f: PayloadField, o: Option<Value>): (r: Result<Option<string>, Error>)
    ensures r.Success? <==> o.None? || o.value.Null? || o.value.Str?
    ensures r.Success? ==> OptionalText(r.value) == o.GetOr(Null)
    ensures r.Failure? ==> r.error == InvalidField(Key(f))
  {
    if o.None? || o.value.Null? then Success(None)
    else if o.value.Str? then Success(Some(o.value.s))
    else Failure(InvalidField(Key(f)))
  }

  /** A `dict[str, str] | None` field. */
  function MaybeTextMapField(f: PayloadField, o: Option<Value>): (r: Result<Option<map<string, string>>, Error>)
    ensures r.Success? <==> o.None? || o.value.Null? || (o.value.Obj? && forall e | e in o.value.entries :: o.value.entries[e].Str?)
    ensures r.Success? ==> OptionalTextMap(r.value) == o.GetOr(Null)
    ensures r.Failure? ==> r.error == InvalidField(Key(f))
  {
    if o.None? || o.value.Null? then Success(None)
    else if o.value.Obj? && forall e | e in o.value.entries :: o.value.entries[e].Str? then
      var m := o.value.entries;
      var texts := map e | e in m :: m[e].s;
      assert (map e | e in texts :: Str(texts[e])) == m;
      Success(Some(texts))
    else Failure(InvalidField(Key(f)))
  }

  /** A `dict | None` field. */
  function MaybeObjectField(f: PayloadField, o: Option<Value>): (r: Result<Option<map<string, Value>>, Error>)
    ensures r.Success? <==> o.None? || o.value.Null? || o.value.Obj?
    ensures r.Success? ==> OptionalObject(r.value) == o.GetOr(Null)
    ensures r.Failure? ==> r.error == InvalidField(Key(f))
  {
    if o.None? || o.value.Null? then Success(None)
    else if o.value.Obj? then Success(Some(o.value.entries))
    else Failure(InvalidField(Key(f)))
  }

  /** Reading a request body into the create or update payload, field by
      field in declaration order; the first refused field is reported. Keys
      that are not payload fields are ignored; left-out fields take their
      defaults (`currency` the configured currency, `quantity` 1, the rest
      None). */
  function ParsePayload(body: map<string, Value>, defaultCurrency: string): (r: Result<ProductPayload, Error>)
    ensures r.Success? ==> Field(body, Name) == Some(Str(r.value.name))
    ensures r.Success? ==> Field(body, UnitPrice) == Some(Num(r.value.unitPrice))
    ensures r.Failure? ==> r.error.InvalidField?
  {
    var name :- TextField(Name, Field(body, Name));
    var description :- MaybeTextField(Description, Field(body, Description));
    var unitPrice :- NumberField(UnitPrice, Field(body, UnitPrice));
    var currency :- TextFieldOr(Currency, Field(body, Currency), defaultCurrency);
    var quantity :- NumberFieldOr(Quantity, Field(body, Quantity), DefaultQuantity);
    var variant :- MaybeTextMapField(Variant, Field(body, Variant));
    var webhookUrl :- MaybeTextField(WebhookUrl, Field(body, WebhookUrl));
    var revenueShareId :- MaybeTextField(RevenueShareId, Field(body, RevenueShareId));
    var taxId :- MaybeTextField(TaxId, Field(body, TaxId));
    var merchant :- MaybeTextField(Merchant, Field(body, Merchant));
    var metaData :- MaybeObjectField(MetaData, Field(body, MetaData));
    var data :- MaybeObjectField(Data, Field(body, Data));
    Success(ProductPayload(name, description, unitPrice, currency, quantity, variant,
                           webhookUrl, revenueShareId, taxId, merchant, metaData, data))
  }

  /** The schema accepts exactly the admissible bodies, and a refusal names
      a payload field. */
  lemma ParseAcceptsIffAdmissible(body: map<string, Value>, defaultCurrency: string)
    ensures ParsePayload(body, defaultCurrency).Success? <==> Admissible(body)
    ensures ParsePayload(body, defaultCurrency).Failure? ==>
      exists f: PayloadField :: ParsePayload(body, defaultCurrency).error == InvalidField(Key(f))
  {
    if ParsePayload(body, defaultCurrency).Success? {
      forall f: PayloadField ensures FieldAccepted(f, Field(body, f)) {
        match f
        case Name => case Description => case UnitPrice => case Currency =>
        case Quantity => case Variant => case WebhookUrl => case RevenueShareId =>
        case TaxId => case Merchant => case MetaData => case Data =>
      }
    }
  }

  /** Every field of a parsed payload is what the body gave for it, or its
      default when the body left it out. */
  lemma ParsedFieldValues(body: map<string, Value>, defaultCurrency: string, f: PayloadField)
    requires ParsePayload(body, defaultCurrency).Success?
    ensures FieldValue(ParsePayload(body, defaultCurrency).value, f)
      == Field(body, f).GetOr(FieldDefault(f, defaultCurrency))
  {
  }

  /** A client cannot reach any field outside the payload: adding or
      changing a key that is not a payload field's (an id, an owner, a
      status, a URL the payload does not expose) leaves the parsed payload
      as it was. */
  lemma ForeignKeysIgnored(body: map<string, Value>, defaultCurrency: string, k: string, v: Value)
    requires k !in PayloadKeys()
    ensures ParsePayload(body[k := v], defaultCurrency) == ParsePayload(body, defaultCurrency)
  {
    forall f: PayloadField ensures Field(body[k := v], f) == Field(body, f) {
      PayloadFieldsComplete(f, f);
    }
  }

  /** The body a dump would give as JSON. */
  function DumpBody(p: ProductPayload): map<string, Value> {
    map f: PayloadField | f in PayloadFields :: Key(f) := FieldValue(p, f)
  }

  /** The dump body holds each field's dumped value under the field's key. */
  lemma DumpBodyField(p: ProductPayload, f: PayloadField)
    ensures Field(DumpBody(p), f) == Some(FieldValue(p, f))
  {
    PayloadFieldsComplete(f, f);
    forall g: PayloadField ensures Key(g) == Key(f) ==> g == f {
      PayloadFieldsComplete(g, f);
    }
  }

  /** A body that holds each field's dumped value parses to the payload. */
  lemma ParseDumpedFields(body: map<string, Value>, p: ProductPayload, defaultCurrency: string)
    requires forall f: PayloadField :: Field(body, f) == Some(FieldValue(p, f))
    ensures ParsePayload(body, defaultCurrency) == Success(p)
  {
    assert TextField(Name, Field(body, Name)) == Success(p.name);
    assert MaybeTextField(Description, Field(body, Description)) == Success(p.description);
    assert NumberField(UnitPrice, Field(body, UnitPrice)) == Success(p.unitPrice);
    assert TextFieldOr(Currency, Field(body, Currency), defaultCurrency) == Success(p.currency);
    assert NumberFieldOr(Quantity, Field(body, Quantity), DefaultQuantity) == Success(p.quantity);
    assert MaybeTextMapField(Variant, Field(body, Variant)) == Success(p.variant) by {
      TextMapRoundTrip(p.variant);
    }
    assert MaybeTextField(WebhookUrl, Field(body, WebhookUrl)) == Success(p.webhookUrl);
    assert MaybeTextField(RevenueShareId, Field(body, RevenueShareId)) == Success(p.revenueShareId);
    assert MaybeTextField(TaxId, Field(body, TaxId)) == Success(p.taxId);
    assert MaybeTextField(Merchant, Field(body, Merchant)) == Success(p.merchant);
    assert MaybeObjectField(MetaData, Field(body, MetaData)) == Success(p.metaData);
    assert MaybeObjectField(Data, Field(body, Data)) == Success(p.data);
  }

  /** Parsing the dump of a payload gives back that payload. */
  lemma DumpParseRoundTrip(p: ProductPayload, defaultCurrency: string)
    ensures ParsePayload(DumpBody(p), defaultCurrency) == Success(p)
  {
    forall f: PayloadField ensures Field(DumpBody(p), f) == Some(FieldValue(p, f)) {
      DumpBodyField(p, f);
    }
    ParseDumpedFields(DumpBody(p), p, defaultCurrency);
  }

  /** Reading back a dumped string map gives the map. */
  lemma TextMapRoundTrip(o: Option<map<string, string>>)
    ensures MaybeTextMapField(Variant, Some(OptionalTextMap(o))) == Success(o)
  {
    if o.Some? {
      var dumped := OptionalTextMap(o).entries;
      assert (map e | e in dumped :: dumped[e].s) == o.value;
    }
  }
}
