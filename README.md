# Product catalogue: validation, notification and payload mapping

A Dafny model of the decision logic of the product-list service, a small
catalogue of products (retail goods or SaaS packages). It covers two parts of
the service.

- **The product schemas** (`app/apps/product/schemas.py`). This covers the
  `Bundle` record and its defaults, and the product record. It covers the
  three calls a product makes to URLs it carries: validation, reservation and
  webhook. It also covers the create and update payloads, with their field
  sets and defaults.
- **The product router** (`app/apps/product/routes.py`). Create hands the
  whole payload dump to the generic CRUD base. Update hands over the dump
  without its None entries, together with the uid.

Modelling choices:

- **No HTTP.** Nothing is sent. Each call returns the requests it would issue,
  as `Get(url)` or `Post(url, product)` values.
- **Validator reply.** The validator's reply is an input. It is either a
  record of an optional `price` and an optional `stock_quantity`, or the
  reason the fetch failed. A failed fetch propagates as an error. It is never
  read as approval.
- **Exact decimals.** Money and stock amounts are `real`, which is exact.
- **Configured currency.** The default currency is a parameter of type
  string. This assumes the configured currency is a string: pydantic does not
  validate defaults, so were it None, an update leaving out `currency` would
  forward nothing for it.
- **Dicts.** A dump is an ordered dictionary: a sequence of (key, value)
  pairs in field-declaration order. A request body is a map from keys to
  JSON values: null, booleans, strings, numbers, arrays and objects.
- **Missing price.** A validator reply without a price counts as a mismatch,
  so the product is refused. The code compares a possibly-None value with
  the unit price (`schemas.py:70`). A lenient reading, in which only a
  present, different price refuses, would accept such a reply. The model
  follows the code. `ProductSchemas.MissingPriceIsTheOnlyDivergence` states
  exactly where the two readings differ.
- **Missing quantity.** `ProductSchema` declares no `quantity`: the line is
  commented out (`schemas.py:34`). Yet the stock check reads it
  (`schemas.py:76`), and `@field_validator("quantity")` still names it
  (`schemas.py:61`). Pydantic v2 refuses to define a class whose field
  validator names an undeclared field. So either a base class declares
  `quantity` and line 76 reads it, or `ProductSchema` cannot be defined and
  `validate_product` never runs. The model's `ValidateProduct` takes the
  ordered quantity as a parameter. `ValidateProductAsDeclared` models lines
  65-79 as text for a class that was built without the field: reaching line 76
  then fails with a missing attribute. See Findings.
- **One payload type.** The create and update payloads declare identical
  fields. One datatype, `ProductPayload`, serves both, with the aliases
  `ProductCreate` and `ProductUpdate`. Keys that are not payload fields are
  ignored, as a default pydantic model does.

## Model

| member | source | states |
|---|---|---|
| `ProductSchemas.NewBundle` | app/apps/product/schemas.py:13-17 | a bundle is built iff `order` is absent or one of 0, 1, 2 (otherwise the `order` field is refused); `order` defaults to 1 and `unit` to "unit"; asset and quota are kept |
| `ProductSchemas.ValidateProduct` | app/apps/product/schemas.py:65-79 | no validation URL: valid and no request; otherwise exactly one GET to that URL; a failed fetch propagates as an error; a reply whose price is missing or differs from the unit price gives false whatever the stock; same price and no stock gives true; same price and a stock figure gives true iff stock >= quantity |
| `ProductSchemas.ValidatedIff` | app/apps/product/schemas.py:65-79 | the verdict is true exactly when no validator is set, or the reply has the same price and no stock figure or enough stock |
| `ProductSchemas.ValidationMonotoneInQuantity` | app/apps/product/schemas.py:76-79 | if a quantity is accepted, every smaller quantity is accepted on the same reply |
| `ProductSchemas.MissingPriceIsTheOnlyDivergence` | app/apps/product/schemas.py:70-71 | with a validator set, the code differs from the reading "only a present, different price refuses" exactly on replies without a price that would pass the stock check |
| `ProductSchemas.ValidateProductAsDeclared` | app/apps/product/schemas.py:65-79 | with no declared `quantity`, reaching the stock comparison sends the one GET to the validation URL and then fails with a missing-attribute error; in every other case it agrees with `ValidateProduct` for any quantity |
| `ProductSchemas.ValidatorScenarios` | app/apps/product/schemas.py:65-79 | price 9.99 with stock 5: quantity 3 is accepted and quantity 10 refused; price 8.00 or no price is refused; the as-declared code fails on the first scenario |
| `ProductSchemas.PostIfSet` | app/apps/product/schemas.py:81-91 | no URL gives no request; a URL gives exactly one POST of the product to that URL |
| `ProductSchemas.ReserveProduct` | app/apps/product/schemas.py:81-85 | at most one request; none iff `reserve_url` is unset; the request is a POST to `reserve_url` whose body is the unchanged product |
| `ProductSchemas.WebhookProduct` | app/apps/product/schemas.py:87-91 | at most one request; none iff `webhook_url` is unset; the request is a POST to `webhook_url` whose body is the unchanged product |
| `ProductSchemas.PayloadFieldsComplete` | app/apps/product/schemas.py:94-109 | every payload field is in the declared field list, and different fields have different JSON keys |
| `ProductSchemas.PayloadKeysDistinct` | app/apps/product/schemas.py:94-109 | no JSON key occurs twice among the payload fields |
| `ProductSchemas.ProductOnlyKeysNotInPayload` | app/apps/product/schemas.py:94-127 | no payload field is `item_type`, `product_url`, `reserve_url`, `validation_url`, `plan_duration`, `bundles` or `extra_data` |
| `ProductSchemas.Dump` | app/apps/product/schemas.py:94-109 | a dump lists exactly the payload keys in declaration order, with no repeats, each with its field's value (None as null) |
| `ProductSchemas.TextField` | app/apps/product/schemas.py:95 | a required `str` is accepted iff present and a string, and reads back as that string; otherwise that field is refused |
| `ProductSchemas.TextFieldOr` | app/apps/product/schemas.py:98 | a defaulted `str` is accepted iff absent or a string (null is refused); absent gives the default |
| `ProductSchemas.NumberField` | app/apps/product/schemas.py:97 | a required `Decimal` is accepted iff present and a number |
| `ProductSchemas.NumberFieldOr` | app/apps/product/schemas.py:99 | a defaulted `Decimal` is accepted iff absent or a number (null is refused); absent gives the default |
| `ProductSchemas.MaybeTextField` | app/apps/product/schemas.py:96 | an optional `str` is accepted iff absent, null or a string; absent and null both give None |
| `ProductSchemas.MaybeTextMapField` | app/apps/product/schemas.py:100 | an optional `dict[str, str]` is accepted iff absent, null, or an object whose values are all strings; it dumps back to the same value |
| `ProductSchemas.MaybeObjectField` | app/apps/product/schemas.py:108-109 | an optional `dict` is accepted iff absent, null or an object, and dumps back to the same value |
| `ProductSchemas.ParsePayload` | app/apps/product/schemas.py:94-127 | an accepted body carries `name` as a string and `unit_price` as a number, which become the payload's; a refusal is always a refused field (its full behaviour is stated by the lemmas below) |
| `ProductSchemas.ParseAcceptsIffAdmissible` | app/apps/product/schemas.py:94-109 | a body is accepted iff `name` and `unit_price` are present and every payload field it carries has the declared type; a refusal names a payload field |
| `ProductSchemas.ParsedFieldValues` | app/apps/product/schemas.py:94-109 | each field of an accepted payload is the body's value, or its default when left out: currency the configured one, quantity 1, others None |
| `ProductSchemas.ForeignKeysIgnored` | app/apps/product/schemas.py:94-109 | adding or changing any key that is not a payload key (id, owner, status, product-only URL) does not change the parsed payload |
| `ProductSchemas.DumpBodyField` | app/apps/product/schemas.py:94-109 | the body built from a dump has each field's dumped value under that field's key |
| `ProductSchemas.TextMapRoundTrip` | app/apps/product/schemas.py:100 | reading back a dumped `variant` gives the original value |
| `ProductSchemas.ParseDumpedFields` | app/apps/product/schemas.py:94-109 | a body with every field's dumped value parses to that payload |
| `ProductSchemas.DumpParseRoundTrip` | app/apps/product/schemas.py:94-109 | parsing the dump of any payload gives back that payload |
| `ProductRoutes.ExcludeNone` | app/apps/product/routes.py:39 | the filtered dictionary is no longer than the input and holds no None value |
| `ProductRoutes.ExcludeNoneMembership` | app/apps/product/routes.py:39 | an entry is kept iff it was in the input and its value is not None |
| `ProductRoutes.ExcludeNoneAppend` | app/apps/product/routes.py:39 | filtering a concatenation is concatenating the filtered parts, so kept entries stay in order |
| `ProductRoutes.ExcludeNoneWithoutNone` | app/apps/product/routes.py:39 | a dictionary with no None value passes unchanged |
| `ProductRoutes.ExcludeNoneIdempotent` | app/apps/product/routes.py:39 | filtering an already-filtered dictionary changes nothing |
| `ProductRoutes.ExcludeNoneKeepsDistinct` | app/apps/product/routes.py:39 | filtering keeps keys distinct |
| `ProductRoutes.DumpLookup` | app/apps/product/routes.py:33 | looking up a field's key in a dump gives that field's value |
| `ProductRoutes.DumpLookups` | app/apps/product/routes.py:33 | a dump has a value exactly for the payload keys, each being its field's value |
| `ProductRoutes.CreateItem` | app/apps/product/routes.py:32-33 | create forwards every payload field unchanged, None values included, and no other key; keys are distinct |
| `ProductRoutes.CreateItemRoundTrip` | app/apps/product/routes.py:32-33 | the dictionary create forwards holds exactly the dump body's keys and values, and parsing that body gives back the payload |
| `ProductRoutes.DumpEntry` | app/apps/product/routes.py:33 | the only entry of a dump under a field's key carries that field's value |
| `ProductRoutes.UpdateItem` | app/apps/product/routes.py:35-40 | update forwards the uid unchanged, and exactly the payload fields whose value is not None, values unchanged; no other key; keys distinct |
| `ProductRoutes.FilteredDumpLookups` | app/apps/product/routes.py:38-40 | the filtered dump has a value exactly for the non-None payload fields, each being its field's value |
| `ProductRoutes.UpdateIsFilteredCreate` | app/apps/product/routes.py:32-40 | what update forwards is what create would forward less its None entries; filtering it again changes nothing |
| `ProductRoutes.UpdateAlwaysOverwritesCoreFields` | app/apps/product/schemas.py:112-117 | every update forwards `name`, `unit_price`, `currency` and `quantity` with the payload's values |
| `ProductRoutes.UpdateOmittingDefaultsResetsThem` | app/apps/product/schemas.py:116-117 | an update body without `quantity` forwards quantity 1; one without `currency` forwards the configured currency |
| `ProductRoutes.ForgedKeysNeverForwarded` | app/apps/product/routes.py:32-40 | a key outside the payload (such as a forged owner or id) changes neither create's nor update's forwarded data and is never forwarded itself |

## Left out

- `ProductsRouter.get_user` (routes.py:16-30): identity lookup through an external authentication service and an environment variable.
- The network calls themselves: status codes, timeouts and response decoding. The validator reply is an input; reservation and webhook calls are returned as request values; nothing models their responses.
- `decimal_amount`, used by `validate_price`, `validate_quantity` and `validate_quota` of `ProductSchema` and `Bundle`: it belongs to an external library. Amounts are exact reals from the start.
- `ProductSchemas.NumberField`, `ProductSchemas.NumberFieldOr`, `ProductSchemas.ParsePayload`: a JSON string holding a number, which pydantic reads as a Decimal for `unit_price` and `quantity`, is refused.
- Float-versus-Decimal equality: a JSON price may arrive as a float, and in Python it may then not equal an equal-looking Decimal. The model compares exact values.
- Validator replies whose `price` or `stock_quantity` is not a number (a string stock would raise when compared): replies carry numbers or nothing.
- Ownership, id, status and timestamp fields of the base entity schema: the base schema is not part of this model. The product record holds the fields `ProductSchema` declares. A POST body is that record, standing for the whole dump.
- The generic CRUD base's create and update (persistence, ownership assignment, the merge of an update into the stored document), `models.py` (index configuration only) and `server.py` (app start-up and router mounting).
- UUID format checking of `revenue_share_id`: it is kept as a string.
- `ProductSchemas.ParsePayload`: reports only the first refused field, where pydantic reports all refused fields.
- `ProductSchemas.NewBundle`: takes already-typed arguments; reading a bundle from JSON, and the `quota` conversion, are not modelled.
- The order in which callers chain validation, reservation and webhook: no code in these files composes them.
- `ProductSchemas.ValidateProduct`: takes the ordered quantity as a parameter, because the schema does not declare `quantity` (see Findings).

## Findings

| source | as written | input that shows it | evidently intended | confidence | as-written member | corrected member |
|---|---|---|---|---|---|---|
| app/apps/product/schemas.py:76 | the stock check reads `self.quantity`, but the field is commented out of `ProductSchema` (line 34) while `@field_validator("quantity")` remains (lines 61-63); pydantic v2 refuses that validator at class definition unless a base class declares `quantity`, so the likelier consequence is that `ProductSchema` cannot be defined at all; an error at line 76 alone needs a class built despite the validator | `validation_url` set, reply `{"price": <unit_price>, "stock_quantity": 5}` | declare `quantity` and compare the stock with the quantity being bought | not executed; medium (the base entity schema, not part of this model, could declare `quantity`, and then nothing fails) | `ProductSchemas.ValidateProductAsDeclared` | `ProductSchemas.ValidateProduct` |
