/**
 * The product input check of middlewares/validateProduct.js: a Joi object
 * schema, here both as a declarative validity predicate and as the ordered
 * check Joi runs (keys in schema order, then unknown keys, stopping at the
 * first error), and the middleware that answers 400 or passes the request on.
 */
module ValidateProduct {
  import opened Wrappers
  import opened JsText

  /** A parsed JSON request body; an object keeps its members in the order they were written. */
  datatype Json =
    | JNull
    | JBool(b: bool)
    | JNumber(n: real)
    | JString(s: string)
    | JArray(items: seq<Json>)
    | JObject(members: seq<(string, Json)>)

  /** The value of member `key`: the last one written, as `JSON.parse` keeps it. */
  function Get(members: seq<(string, Json)>, key: string): (r: Option<Json>)
    ensures r.None? <==> forall k :: 0 <= k < |members| ==> members[k].0 != key
    ensures r.Some? ==> (key, r.value) in members
  {
    if members == [] then None
    else if members[|members| - 1].0 == key then Some(members[|members| - 1].1)
    else Get(members[..|members| - 1], key)
  }

  const ProductKeys: set<string> := {"productName", "quantity", "price", "hsnSac", "description", "status"}
  const SpecificationKeys: set<string> := {"type", "specification"}

  predicate IsInteger(x: real) {
    x == x.Floor as real
  }

  /** `Number.MAX_SAFE_INTEGER`, 2^53 - 1. */
  const MaxSafe: real := 9007199254740991.0

  /** Within plus or minus `Number.MAX_SAFE_INTEGER`, which `Joi.number()` demands unless `unsafe()` is set. */
  predicate SafeNumber(x: real) {
    -MaxSafe <= x <= MaxSafe
  }

  /** A string value whose length lies in `lo..hi`. */
  predicate TextWithin(v: Json, lo: nat, hi: nat) {
    v.JString? && lo <= |v.s| <= hi
  }

  predicate OnlyKeys(members: seq<(string, Json)>, known: set<string>) {
    forall k :: 0 <= k < |members| ==> members[k].0 in known
  }

  /** One `description` element: an object with a non-empty `type` of at most 50 and a non-empty `specification` of at most 500 characters. */
  predicate SpecificationValid(v: Json) {
    && v.JObject? && OnlyKeys(v.members, SpecificationKeys)
    && Get(v.members, "type").Some? && TextWithin(Get(v.members, "type").value, 1, 50)
    && Get(v.members, "specification").Some? && TextWithin(Get(v.members, "specification").value, 1, 500)
  }

  /** What `productSchema` accepts. */
  predicate ProductValid(body: Json) {
    && body.JObject? && OnlyKeys(body.members, ProductKeys)
    && var name := Get(body.members, "productName");
    && var quantity := Get(body.members, "quantity");
    && var price := Get(body.members, "price");
    && var hsn := Get(body.members, "hsnSac");
    && var description := Get(body.members, "description");
    && var status := Get(body.members, "status");
    && name.Some? && TextWithin(name.value, 3, 100)
    && quantity.Some? && quantity.value.JNumber? && SafeNumber(quantity.value.n)
    && IsInteger(quantity.value.n) && quantity.value.n >= 1.0
    && price.Some? && price.value.JNumber? && SafeNumber(price.value.n) && price.value.n >= 0.0
    && (hsn.Some? ==> TextWithin(hsn.value, 0, 20))
    && (description.Some? ==>
          description.value.JArray? && forall i :: 0 <= i < |description.value.items| ==> SpecificationValid(description.value.items[i]))
    && (status.Some? ==> status.value == JString("Active") || status.value == JString("Inactive"))
  }

  /** Joi's label for a path: the path in double quotes. */
  function Label(path: string): string {
    "\"" + path + "\""
  }

  function Child(path: string, key: string): string {
    if path == "" then key else path + "." + key
  }

  /** The first of two check results that reports an error: Joi stops at the first one (`abortEarly`). */
  function Or(first: Option<string>, second: Option<string>): (r: Option<string>)
    ensures r.None? <==> first.None? && second.None?
  {
    if first.Some? then first else second
  }

  /** A `Joi.string()` rule with `min`/`max`, optionally `allow('')`, on a present value. */
  function TextIssue(path: string, v: Json, allowEmpty: bool, min: nat, max: nat): (r: Option<string>)
    ensures r.None? <==> v.JString? && (if v.s == "" then allowEmpty else min <= |v.s| <= max)
  {
    if !v.JString? then Some(Label(path) + " must be a string")
    else if v.s == "" then
      if allowEmpty then None else Some(Label(path) + " is not allowed to be empty")
    else if |v.s| < min then Some(Label(path) + " length must be at least " + Decimal(min) + " characters long")
    else if |v.s| > max then Some(Label(path) + " length must be less than or equal to " + Decimal(max) + " characters long")
    else None
  }

  /**
   * A `Joi.number()` rule, optionally `integer()`, with `min`, on a present
   * value: the type and the safe range are checked before the rules.
   */
  function NumberIssue(path: string, v: Json, integer: bool, min: nat): (r: Option<string>)
    ensures r.None? <==> v.JNumber? && SafeNumber(v.n) && (integer ==> IsInteger(v.n)) && v.n >= min as real
    ensures v.JNumber? && !SafeNumber(v.n) ==> r == Some(Label(path) + " must be a safe number")
  {
    if !v.JNumber? then Some(Label(path) + " must be a number")
    else if !SafeNumber(v.n) then Some(Label(path) + " must be a safe number")
    else if integer && !IsInteger(v.n) then Some(Label(path) + " must be an integer")
    else if v.n < min as real then Some(Label(path) + " must be greater than or equal to " + Decimal(min))
    else None
  }

  function Required(path: string): string {
    Label(path) + " is required"
  }

  /** The smallest array-index key among the members not in `known`. */
  function LeastIndexKey(members: seq<(string, Json)>, known: set<string>): (r: Option<nat>)
    ensures r.Some? ==> Decimal(r.value) !in known && exists k :: 0 <= k < |members| && members[k].0 == Decimal(r.value)
    ensures forall k :: 0 <= k < |members| && members[k].0 !in known && ArrayIndex(members[k].0).Some? ==>
      r.Some? && r.value <= ArrayIndex(members[k].0).value
  {
    if members == [] then None
    else
      var rest := LeastIndexKey(members[1..], known);
      var here := if members[0].0 !in known then ArrayIndex(members[0].0) else None;
      if here.None? then
        if rest.Some? then
          var k :| 0 <= k < |members[1..]| && members[1..][k].0 == Decimal(rest.value);
          assert members[k + 1].0 == Decimal(rest.value);
          rest
        else None
      else if rest.None? || here.value <= rest.value then here
      else
        var k :| 0 <= k < |members[1..]| && members[1..][k].0 == Decimal(rest.value);
        assert members[k + 1].0 == Decimal(rest.value);
        rest
  }

  /** The first member, in written order, whose key is not in `known`. */
  function FirstUnknown(members: seq<(string, Json)>, known: set<string>): (r: Option<string>)
    ensures r.None? <==> OnlyKeys(members, known)
    ensures r.Some? ==> r.value !in known
    ensures forall p :: 0 <= p < |members| && members[p].0 !in known && OnlyKeys(members[..p], known) ==> r == Some(members[p].0)
  {
    if members == [] then None
    else if members[0].0 !in known then Some(members[0].0)
    else
      assert forall k :: 1 <= k < |members| ==> members[k] == members[1..][k - 1];
      FirstUnknown(members[1..], known)
  }

  /**
   * The unknown key Joi reports: object keys are visited as
   * `Object.keys` lists them, array-index keys first in numeric order, then
   * the others in written order.
   */
  function UnknownKey(members: seq<(string, Json)>, known: set<string>): (r: Option<string>)
    ensures r.None? <==> OnlyKeys(members, known)
    ensures r.Some? ==> r.value !in known
  {
    match LeastIndexKey(members, known)
    case Some(n) => Some(Decimal(n))
    case None => FirstUnknown(members, known)
  }

  function UnknownIssue(path: string, members: seq<(string, Json)>, known: set<string>): (r: Option<string>)
    ensures r.None? <==> OnlyKeys(members, known)
  {
    match UnknownKey(members, known)
    case None => None
    case Some(key) => Some(Label(Child(path, key)) + " is not allowed")
  }

  /** A required string member. */
  function RequiredText(path: string, members: seq<(string, Json)>, key: string, min: nat, max: nat): (r: Option<string>)
    ensures r.None? <==> Get(members, key).Some? && TextWithin(Get(members, key).value, if min == 0 then 1 else min, max)
  {
    match Get(members, key)
    case None => Some(Required(Child(path, key)))
    case Some(v) => TextIssue(Child(path, key), v, false, min, max)
  }

  /** The first error in one `description` element. */
  function SpecificationIssue(path: string, v: Json): (r: Option<string>)
    ensures r.None? <==> SpecificationValid(v)
  {
    if !v.JObject? then Some(Label(path) + " must be of type object")
    else
      Or(RequiredText(path, v.members, "type", 0, 50),
      Or(RequiredText(path, v.members, "specification", 0, 500),
         UnknownIssue(path, v.members, SpecificationKeys)))
  }

  /** Joi's path for element `i` of `description`. */
  function ItemPath(i: nat): string {
    "description[" + Decimal(i) + "]"
  }

  /** Every element from `from` on is valid exactly when the one at `from` is and every later one is. */
  lemma ValidFromSplit(items: seq<Json>, from: nat)
    requires from < |items|
    ensures (forall i :: from <= i < |items| ==> SpecificationValid(items[i])) <==>
      SpecificationValid(items[from]) && forall i :: from + 1 <= i < |items| ==> SpecificationValid(items[i])
  {
  }

  /** The first error among the elements from position `from` on. */
  function ItemsIssue(items: seq<Json>, from: nat): (r: Option<string>)
    requires from <= |items|
    ensures r.None? <==> forall i :: from <= i < |items| ==> SpecificationValid(items[i])
    decreases |items| - from
  {
    if from == |items| then None
    else
      var rest := ItemsIssue(items, from + 1);
      ValidFromSplit(items, from);
      Or(SpecificationIssue(ItemPath(from), items[from]), rest)
  }

  function DescriptionIssue(v: Option<Json>): (r: Option<string>)
    ensures r.None? <==>
      v.Some? ==> v.value.JArray? && forall i :: 0 <= i < |v.value.items| ==> SpecificationValid(v.value.items[i])
  {
    match v
    case None => None
    case Some(JArray(items)) => ItemsIssue(items, 0)
    case Some(_) => Some(Label("description") + " must be an array")
  }

  function StatusIssue(v: Option<Json>): (r: Option<string>)
    ensures r.None? <==> v.Some? ==> v.value == JString("Active") || v.value == JString("Inactive")
  {
    match v
    case None => None
    case Some(x) =>
      if x == JString("Active") || x == JString("Inactive") then None
      else Some(Label("status") + " must be one of [Active, Inactive]")
  }

  /** A required number member, optionally an integer, with a minimum. */
  function RequiredNumber(members: seq<(string, Json)>, key: string, integer: bool, min: nat): (r: Option<string>)
    ensures r.None? <==>
      Get(members, key).Some? && Get(members, key).value.JNumber? && SafeNumber(Get(members, key).value.n)
      && (integer ==> IsInteger(Get(members, key).value.n)) && Get(members, key).value.n >= min as real
  {
    match Get(members, key)
    case None => Some(Required(key))
    case Some(v) => NumberIssue(key, v, integer, min)
  }

  function HsnIssue(v: Option<Json>): (r: Option<string>)
    ensures r.None? <==> v.Some? ==> TextWithin(v.value, 0, 20)
  {
    match v
    case None => None
    case Some(x) => TextIssue("hsnSac", x, true, 0, 20)
  }

  /** The first error among the schema's own keys, in schema order. */
  function KeysIssue(ms: seq<(string, Json)>): (r: Option<string>)
    ensures r.None? <==>
      && Get(ms, "productName").Some? && TextWithin(Get(ms, "productName").value, 3, 100)
      && RequiredNumber(ms, "quantity", true, 1).None?
      && RequiredNumber(ms, "price", false, 0).None?
      && HsnIssue(Get(ms, "hsnSac")).None?
      && DescriptionIssue(Get(ms, "description")).None?
      && StatusIssue(Get(ms, "status")).None?
  {
    Or(RequiredText("", ms, "productName", 3, 100),
    Or(RequiredNumber(ms, "quantity", true, 1),
    Or(RequiredNumber(ms, "price", false, 0),
    Or(HsnIssue(Get(ms, "hsnSac")),
    Or(DescriptionIssue(Get(ms, "description")),
       StatusIssue(Get(ms, "status")))))))
  }

  /**
   * `productSchema.validate(body).error`: the message of the first error
   * Joi meets, keys in schema order and unknown keys last; there is none
   * exactly when the body satisfies the schema.
   */
  function FirstIssue(body: Json): (r: Option<string>)
    ensures r.None? <==> ProductValid(body)
  {
    if !body.JObject? then Some(Label("value") + " must be of type object")
    else Or(KeysIssue(body.members), UnknownIssue("", body.members, ProductKeys))
  }

  /** What the middleware does with a request. */
  datatype Outcome = Next | Respond(status: nat, message: string, details: seq<string>)

  /** `validateProduct`: 400 with the error's message and `next` not called, or `next` with nothing written. */
  function Validate(body: Json): (o: Outcome)
    ensures o.Next? <==> ProductValid(body)
    ensures o.Respond? ==> o.status == 400 && o.message == "Validation Error" && FirstIssue(body).Some? && o.details == [FirstIssue(body).value]
  {
    match FirstIssue(body)
    case None => Next
    case Some(m) => Respond(400, "Validation Error", [m])
  }

  /** A body whose `productName` is a string of 3 to 100 characters. */
  predicate NameValid(ms: seq<(string, Json)>) {
    Get(ms, "productName").Some? && TextWithin(Get(ms, "productName").value, 3, 100)
  }

  /** An object body without `productName` is refused for that key, whatever else it holds. */
  lemma MissingNameReported(ms: seq<(string, Json)>)
    requires forall k :: 0 <= k < |ms| ==> ms[k].0 != "productName"
    ensures Validate(JObject(ms)) == Respond(400, "Validation Error", ["\"productName\" is required"])
  {
    assert Label("productName") + " is required" == "\"productName\" is required";
  }

  /** With a valid name, a missing `quantity` is the error reported, whatever follows it. */
  lemma MissingQuantityReported(ms: seq<(string, Json)>)
    requires NameValid(ms)
    requires forall k :: 0 <= k < |ms| ==> ms[k].0 != "quantity"
    ensures Validate(JObject(ms)) == Respond(400, "Validation Error", ["\"quantity\" is required"])
  {
    assert Label("quantity") + " is required" == "\"quantity\" is required";
  }

  /** The unsafe-number message for `quantity`, written out. */
  lemma UnsafeMessage()
    ensures Label("quantity") + " must be a safe number" == "\"quantity\" must be a safe number"
  {
  }

  /** With a valid name, a `quantity` beyond the safe range is refused as unsafe, before its integer and minimum rules. */
  lemma UnsafeQuantityReported(ms: seq<(string, Json)>)
    requires NameValid(ms)
    requires Get(ms, "quantity").Some? && Get(ms, "quantity").value.JNumber? && !SafeNumber(Get(ms, "quantity").value.n)
    ensures Validate(JObject(ms)) == Respond(400, "Validation Error", ["\"quantity\" must be a safe number"])
  {
    UnsafeMessage();
    assert KeysIssue(ms) == Some(Label("quantity") + " must be a safe number");
  }

  /** A member appended under another key does not change what `Get` finds. */
  lemma GetPastOther(ms: seq<(string, Json)>, key: string, v: Json, x: string)
    requires x != key
    ensures Get(ms + [(key, v)], x) == Get(ms, x)
  {
    assert (ms + [(key, v)])[..|ms|] == ms;
  }

  /** Among known keys, a single unknown key that is not an array index is the one reported. */
  lemma ExtraKeyUnknown(ms: seq<(string, Json)>, known: set<string>, key: string, v: Json)
    requires OnlyKeys(ms, known) && key !in known && ArrayIndex(key).None?
    ensures UnknownIssue("", ms + [(key, v)], known) == Some(Label(key) + " is not allowed")
  {
    var all := ms + [(key, v)];
    var least := LeastIndexKey(all, known);
    if least.Some? {
      var k :| 0 <= k < |all| && all[k].0 == Decimal(least.value);
      ArrayIndexOfDecimal(least.value);
      assert false;
    }
    assert all[..|ms|] == ms;
  }

  /** Joi's message for an unknown key, written out. */
  lemma NotAllowedMessage(key: string)
    ensures Label(key) + " is not allowed" == "\"" + key + "\" is not allowed"
  {
    assert Label(key) + " is not allowed" == "\"" + key + ("\"" + " is not allowed");
  }

  /** A member appended under a key outside the schema does not change the checks of the schema's keys. */
  lemma KeysIssuePastOther(ms: seq<(string, Json)>, key: string, v: Json)
    requires key !in ProductKeys
    ensures KeysIssue(ms + [(key, v)]) == KeysIssue(ms)
  {
    GetPastOther(ms, key, v, "productName");
    GetPastOther(ms, key, v, "quantity");
    GetPastOther(ms, key, v, "price");
    GetPastOther(ms, key, v, "hsnSac");
    GetPastOther(ms, key, v, "description");
    GetPastOther(ms, key, v, "status");
  }

  /** A valid product with one more key outside the schema, not an array index, is refused naming that key. */
  lemma ExtraKeyReported(ms: seq<(string, Json)>, key: string, v: Json)
    requires ProductValid(JObject(ms)) && key !in ProductKeys && ArrayIndex(key).None?
    ensures Validate(JObject(ms + [(key, v)])) == Respond(400, "Validation Error", ["\"" + key + "\" is not allowed"])
  {
    assert KeysIssue(ms).None?;
    KeysIssuePastOther(ms, key, v);
    ExtraKeyUnknown(ms, ProductKeys, key, v);
    NotAllowedMessage(key);
  }
}
