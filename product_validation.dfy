/**
 * The product payload schema of `inputProductValidation`: `name` a required
 * string, trimmed; `qty` and `price` required numbers; `category` an
 * optional string, trimmed, that may also be `null` or ''. A number must be a
 * safe integer (magnitude at most 2^53 - 1), joi's default. Validation stops
 * at the first failing key, in the order the schema declares them.
 */
module ProductValidation {
  import opened Wrappers
  import opened Strings
  import opened Http

  /** `category` after validation: left out, `null`, or a trimmed string (possibly ''). */
  datatype Category = Absent | Null | Text(text: string)

  /** The `value` joi returns for an accepted payload. */
  datatype ProductInput = ProductInput(name: string, qty: int, price: int, category: Category)

  /** The keys of the schema. */
  datatype Key = Name | Qty | Price | CategoryKey

  function KeyName(k: Key): string {
    match k
    case Name => "name"
    case Qty => "qty"
    case Price => "price"
    case CategoryKey => "category"
  }

  /** The keys in the order the schema declares, and joi checks, them. */
  const SchemaKeys: seq<Key> := [Name, Qty, Price, CategoryKey]

  /** `Number.MAX_SAFE_INTEGER`: joi refuses numbers of larger magnitude unless `unsafe()` is set. */
  const MaxSafeInteger := 0x1F_FFFF_FFFF_FFFF

  predicate Safe(n: int) {
    -MaxSafeInteger <= n <= MaxSafeInteger
  }

  /** The rule behind `error.details[0]`. */
  datatype Violation =
    | NotAnObject
    | Required(key: Key)
    | NotAString(key: Key)
    | EmptyString(key: Key)
    | NotANumber(key: Key)
    | Unsafe(key: Key)

  /** `error.details[0].message`, in joi's default wording. */
  function Message(v: Violation): string {
    match v
    case NotAnObject => "\"value\" must be of type object"
    case Required(k) => "\"" + KeyName(k) + "\" is required"
    case NotAString(k) => "\"" + KeyName(k) + "\" must be a string"
    case EmptyString(k) => "\"" + KeyName(k) + "\" is not allowed to be empty"
    case NotANumber(k) => "\"" + KeyName(k) + "\" must be a number"
    case Unsafe(k) => "\"" + KeyName(k) + "\" must be a safe number"
  }

  /** `joi.string().trim().required()` */
  function RequiredText(f: map<string, Json>, k: Key): Result<string, Violation> {
    var key := KeyName(k);
    if key !in f then Failure(Required(k))
    else match f[key]
      case JString(s) => if Trim(s) == "" then Failure(EmptyString(k)) else Success(Trim(s))
      case _ => Failure(NotAString(k))
  }

  /** `joi.number().required()`, with its default safe-integer rule */
  function RequiredNumber(f: map<string, Json>, k: Key): Result<int, Violation> {
    var key := KeyName(k);
    if key !in f then Failure(Required(k))
    else match f[key]
      case JNumber(n) => if Safe(n) then Success(n) else Failure(Unsafe(k))
      case _ => Failure(NotANumber(k))
  }

  /** `joi.string().trim().optional().allow(null, '')` */
  function OptionalText(f: map<string, Json>, k: Key): Result<Category, Violation> {
    var key := KeyName(k);
    if key !in f then Success(Absent)
    else match f[key]
      case JNull => Success(Null)
      case JString(s) => Success(Text(Trim(s)))
      case _ => Failure(NotAString(k))
  }

  /** The rule of one schema key, stated on its own. */
  predicate FieldConforms(f: map<string, Json>, k: Key) {
    var key := KeyName(k);
    match k
    case Name => key in f && f[key].JString? && Trim(f[key].s) != ""
    case Qty => key in f && f[key].JNumber? && Safe(f[key].n)
    case Price => key in f && f[key].JNumber? && Safe(f[key].n)
    case CategoryKey => key !in f || f[key].JNull? || f[key].JString?
  }

  /** A payload the schema accepts. */
  predicate Conforms(payload: Json) {
    && payload.JObject?
    && FieldConforms(payload.fields, Name)
    && FieldConforms(payload.fields, Qty)
    && FieldConforms(payload.fields, Price)
    && FieldConforms(payload.fields, CategoryKey)
  }

  function CategoryOf(f: map<string, Json>): Category
    requires FieldConforms(f, CategoryKey)
  {
    if "category" !in f then Absent
    else if f["category"].JNull? then Null
    else Text(Trim(f["category"].s))
  }

  /** `schema.validate(payload)`: the value, or the first violation. */
  function InputProductValidation(payload: Json): (r: Result<ProductInput, Violation>)
    ensures r.Success? <==> Conforms(payload)
    ensures r.Success? ==>
      var f := payload.fields;
      && r.value.name == Trim(f["name"].s)
      && r.value.qty == f["qty"].n
      && r.value.price == f["price"].n
      && r.value.category == CategoryOf(f)
    ensures r.Success? ==> r.value.name != "" && Trimmed(r.value.name)
    ensures r.Success? ==> Safe(r.value.qty) && Safe(r.value.price)
    ensures r.Success? && r.value.category.Text? ==> Trimmed(r.value.category.text)
  {
    match payload
    case JObject(f) =>
      var name :- RequiredText(f, Name);
      var qty :- RequiredNumber(f, Qty);
      var price :- RequiredNumber(f, Price);
      var category :- OptionalText(f, CategoryKey);
      Success(ProductInput(name, qty, price, category))
    case _ => Failure(NotAnObject)
  }

  /** A payload missing `name`, `qty` or `price` is refused. */
  lemma MissingRequiredFails(f: map<string, Json>)
    requires "name" !in f || "qty" !in f || "price" !in f
    ensures InputProductValidation(JObject(f)).Failure?
  {
  }

  /** With a valid `name`, a `qty` beyond the safe range is refused by joi's safe-number rule. */
  lemma UnsafeQtyRefused(f: map<string, Json>)
    requires FieldConforms(f, Name) && "qty" in f && f["qty"].JNumber? && !Safe(f["qty"].n)
    ensures InputProductValidation(JObject(f)) == Failure(Unsafe(Qty))
  {
  }

  /**
   * The reported violation names the first key, in schema order, whose rule
   * fails; every key before it conforms.
   */
  lemma ReportsFirstFailingKey(f: map<string, Json>)
    ensures var r := InputProductValidation(JObject(f));
      r.Failure? ==>
        && !r.error.NotAnObject?
        && exists i :: 0 <= i < |SchemaKeys| && r.error.key == SchemaKeys[i]
             && !FieldConforms(f, SchemaKeys[i])
             && forall j :: 0 <= j < i ==> FieldConforms(f, SchemaKeys[j])
  {
    var r := InputProductValidation(JObject(f));
    if r.Failure? {
      if RequiredText(f, Name).Failure? {
        assert r.error.key == SchemaKeys[0];
      } else if RequiredNumber(f, Qty).Failure? {
        assert r.error.key == SchemaKeys[1];
      } else if RequiredNumber(f, Price).Failure? {
        assert r.error.key == SchemaKeys[2];
      } else {
        assert r.error.key == SchemaKeys[3];
      }
    }
  }

  /** The JSON form of a validated value, as it is handed to the store. */
  function ToJson(v: ProductInput): Json {
    var required := map["name" := JString(v.name), "qty" := JNumber(v.qty), "price" := JNumber(v.price)];
    match v.category
    case Absent => JObject(required)
    case Null => JObject(required["category" := JNull])
    case Text(s) => JObject(required["category" := JString(s)])
  }

  /** A validated value, in its JSON form, satisfies the schema and carries the same fields. */
  lemma ToJsonConforms(v: ProductInput)
    requires v.name != "" && Trimmed(v.name)
    requires v.category.Text? ==> Trimmed(v.category.text)
    requires Safe(v.qty) && Safe(v.price)
    ensures Conforms(ToJson(v))
    ensures var f := ToJson(v).fields;
      && Trim(f["name"].s) == v.name && f["qty"].n == v.qty && f["price"].n == v.price
      && CategoryOf(f) == v.category
  {
  }

  /** Validating an already validated value gives it back unchanged. */
  lemma RevalidationIsIdentity(payload: Json)
    requires InputProductValidation(payload).Success?
    ensures InputProductValidation(ToJson(InputProductValidation(payload).value))
         == InputProductValidation(payload)
  {
  }
}
