/** `inventoryItemSchema`: the validation the item form runs before its values
    reach the store. Every field is checked and every failed check is
    reported, field by field in declaration order; a field whose number
    cannot be read reports only that. */
module ItemSchema {
  import opened Inventory
  import InventoryStore
  import Text

  /** What `z.coerce.number()` makes of a form entry: `Number(input)`, taken
      here as a finite number or `NaN`; the infinities it can also yield are
      not represented. */
  datatype Coerced = Finite(value: real) | NotANumber

  /** The raw form entries. An absent optional entry is `None`. */
  datatype ItemInput = ItemInput(
    name: string,
    description: Option<string>,
    quantity: Coerced,
    price: Option<Coerced>,
    category: Option<string>,
    lowStockThreshold: Option<Coerced>)

  /** A zod issue: the field it is about and its message. */
  datatype Issue = Issue(path: string, message: string)

  const NameRequired := "El nombre es obligatorio."
  const NameTooLong := "El nombre no puede exceder los 100 caracteres."
  const DescriptionTooLong := "La descripción no puede exceder los 500 caracteres."
  const QuantityNotInteger := "La cantidad debe ser un número entero."
  const QuantityNegative := "La cantidad no puede ser negativa."
  const PriceNegative := "El precio no puede ser negativo."
  const CategoryTooLong := "La categoría no puede exceder los 50 caracteres."
  const ThresholdNotInteger := "El umbral debe ser un número entero."
  const ThresholdNegative := "El umbral no puede ser negativo."
  /** zod's own message when coercion yields `NaN`. */
  const NotANumberMessage := "Expected number, received nan"

  predicate IsInteger(x: real) {
    x == x.Floor as real
  }

  /** The form values the schema lets through: the reference the parser is
      proved against. */
  predicate ValidValues(v: ItemFormValues) {
    && 1 <= Text.Utf16Length(v.name) <= 100
    && (v.description.Some? ==> Text.Utf16Length(v.description.value) <= 500)
    && v.quantity >= 0
    && (v.price.Some? ==> v.price.value >= 0.0)
    && (v.category.Some? ==> Text.Utf16Length(v.category.value) <= 50)
    && (v.lowStockThreshold.Some? ==> v.lowStockThreshold.value >= 0)
  }

  /** The raw entries the schema accepts, stated field by field. */
  predicate Acceptable(input: ItemInput) {
    && 1 <= Text.Utf16Length(input.name) <= 100
    && (input.description.Some? ==> Text.Utf16Length(input.description.value) <= 500)
    && input.quantity.Finite? && IsInteger(input.quantity.value) && input.quantity.value >= 0.0
    && (input.price.Some? ==> input.price.value.Finite? && input.price.value.value >= 0.0)
    && (input.category.Some? ==> Text.Utf16Length(input.category.value) <= 50)
    && (input.lowStockThreshold.Some? ==>
          input.lowStockThreshold.value.Finite?
          && IsInteger(input.lowStockThreshold.value.value)
          && input.lowStockThreshold.value.value >= 0.0)
  }

  /** `z.string().min(1).max(100)`, on the string's `length` in UTF-16 code
      units. */
  function NameIssues(name: string): (r: seq<Issue>)
    ensures r == [] <==> 1 <= Text.Utf16Length(name) <= 100
    ensures r == [] ==> 1 <= |name| <= 100
    ensures |name| > 100 ==> r == [Issue("name", NameTooLong)]
  {
    var n := Text.Utf16Length(name);
    (if n < 1 then [Issue("name", NameRequired)] else [])
    + (if n > 100 then [Issue("name", NameTooLong)] else [])
  }

  /** `z.string().max(limit).optional().or(z.literal(''))`: an absent or empty
      entry passes; the union reports the length issue of its first branch. */
  function OptionalTextIssues(path: string, s: Option<string>, limit: nat, message: string): (r: seq<Issue>)
    ensures r == [] <==> (s.Some? ==> Text.Utf16Length(s.value) <= limit)
    ensures r == [] ==> (s.Some? ==> |s.value| <= limit)
    ensures |r| <= 1
  {
    if s.Some? && Text.Utf16Length(s.value) > limit then [Issue(path, message)] else []
  }

  /** Lengths are counted as JavaScript counts them: a name of 60 characters
      from outside the Basic Multilingual Plane is 120 code units long and
      too long, while a name of 100 characters inside it passes. */
  lemma NameLengthInCodeUnits(astral: string, bmp: string)
    requires |astral| == 60 && forall i :: 0 <= i < |astral| ==> astral[i] as int > 0xFFFF
    requires |bmp| == 100 && forall i :: 0 <= i < |bmp| ==> bmp[i] as int <= 0xFFFF
    ensures NameIssues(astral) == [Issue("name", NameTooLong)]
    ensures NameIssues(bmp) == []
  {
    Text.Utf16LengthOfAstral(astral);
    Text.Utf16LengthOfBmp(bmp);
  }

  /** `z.coerce.number().int(...).min(0, ...)`: `NaN` stops at the type check;
      otherwise both refinements run and each reports its own issue. */
  function WholeCountIssues(path: string, x: Coerced, notInteger: string, negative: string): (r: seq<Issue>)
    ensures r == [] <==> x.Finite? && IsInteger(x.value) && x.value >= 0.0
    ensures forall i :: 0 <= i < |r| ==> r[i].path == path
  {
    match x
    case NotANumber => [Issue(path, NotANumberMessage)]
    case Finite(v) =>
      (if !IsInteger(v) then [Issue(path, notInteger)] else [])
      + (if v < 0.0 then [Issue(path, negative)] else [])
  }

  /** `z.coerce.number().min(0, ...).optional()`: an absent entry passes
      before coercion is tried. */
  function PriceIssues(x: Option<Coerced>): (r: seq<Issue>)
    ensures r == [] <==> (x.Some? ==> x.value.Finite? && x.value.value >= 0.0)
  {
    match x
    case None => []
    case Some(NotANumber) => [Issue("price", NotANumberMessage)]
    case Some(Finite(v)) => if v < 0.0 then [Issue("price", PriceNegative)] else []
  }

  function ThresholdIssues(x: Option<Coerced>): (r: seq<Issue>)
    ensures r == [] <==>
      (x.Some? ==> x.value.Finite? && IsInteger(x.value.value) && x.value.value >= 0.0)
  {
    if x.None? then [] else WholeCountIssues("lowStockThreshold", x.value, ThresholdNotInteger, ThresholdNegative)
  }

  /** Every issue of the object, field by field in declaration order. */
  function Issues(input: ItemInput): seq<Issue> {
    NameIssues(input.name)
    + OptionalTextIssues("description", input.description, 500, DescriptionTooLong)
    + WholeCountIssues("quantity", input.quantity, QuantityNotInteger, QuantityNegative)
    + PriceIssues(input.price)
    + OptionalTextIssues("category", input.category, 50, CategoryTooLong)
    + ThresholdIssues(input.lowStockThreshold)
  }

  /** `inventoryItemSchema.safeParse(input)`: the typed values when no check
      fails, otherwise every issue. */
  function Parse(input: ItemInput): (r: Result<ItemFormValues, seq<Issue>>)
    ensures r.Success? <==> Acceptable(input)
    ensures r.Success? ==> ValidValues(r.value)
    ensures r.Success? ==>
      && r.value.name == input.name && r.value.description == input.description
      && r.value.category == input.category
      && r.value.quantity as real == input.quantity.value
      && (r.value.price.Some? <==> input.price.Some?)
      && (r.value.price.Some? ==> r.value.price.value == input.price.value.value)
      && (r.value.lowStockThreshold.Some? <==> input.lowStockThreshold.Some?)
      && (r.value.lowStockThreshold.Some? ==>
            r.value.lowStockThreshold.value as real == input.lowStockThreshold.value.value)
    ensures r.Failure? ==> r.error != []
  {
    var issues := Issues(input);
    if issues != [] then Failure(issues)
    else
      Success(ItemFormValues(
        input.name,
        input.description,
        input.quantity.value.Floor,
        if input.price.Some? then Some(input.price.value.value) else None,
        input.category,
        if input.lowStockThreshold.Some? then Some(input.lowStockThreshold.value.value.Floor) else None))
  }

  /** The entries a form shows for values it holds. */
  function Entries(v: ItemFormValues): ItemInput {
    ItemInput(
      v.name,
      v.description,
      Finite(v.quantity as real),
      if v.price.Some? then Some(Finite(v.price.value)) else None,
      v.category,
      if v.lowStockThreshold.Some? then Some(Finite(v.lowStockThreshold.value as real)) else None)
  }

  /** Values the schema allows come back unchanged through the form: the
      schema neither rejects nor alters them. */
  lemma ParseEntries(v: ItemFormValues)
    requires ValidValues(v)
    ensures Parse(Entries(v)) == Success(v)
  {
    var r := Parse(Entries(v));
    assert (v.quantity as real).Floor == v.quantity;
    assert v.lowStockThreshold.Some? ==> (v.lowStockThreshold.value as real).Floor == v.lowStockThreshold.value;
    assert r.value.price == v.price;
    assert r.value.lowStockThreshold == v.lowStockThreshold;
  }

  /** A quantity that is neither whole nor non-negative draws both of the
      quantity's messages, in that order. */
  lemma NegativeFractionDrawsBothIssues(input: ItemInput)
    requires input.quantity.Finite? && !IsInteger(input.quantity.value) && input.quantity.value < 0.0
    ensures Parse(input).Failure?
    ensures Issue("quantity", QuantityNotInteger) in Parse(input).error
    ensures Issue("quantity", QuantityNegative) in Parse(input).error
  {
    var w := WholeCountIssues("quantity", input.quantity, QuantityNotInteger, QuantityNegative);
    assert w == [Issue("quantity", QuantityNotInteger), Issue("quantity", QuantityNegative)];
    var pre := NameIssues(input.name) + OptionalTextIssues("description", input.description, 500, DescriptionTooLong);
    var post := PriceIssues(input.price) + OptionalTextIssues("category", input.category, 50, CategoryTooLong)
      + ThresholdIssues(input.lowStockThreshold);
    assert Issues(input) == pre + w + post;
    assert Issues(input)[|pre|] == w[0] && Issues(input)[|pre| + 1] == w[1];
  }

  /** What the schema guarantees is what the ledger needs: an item created
      from parsed values under a fresh id, with its opening movement logged,
      keeps the ledger consistent. */
  lemma ParsedItemKeepsLedgerConsistent(input: ItemInput, v: ItemFormValues, items: seq<Item>,
                                        ms: seq<Movement>, ms': seq<Movement>, id: string, now: Timestamp)
    requires Parse(input) == Success(v)
    requires InventoryStore.Consistent(items, ms) && InventoryStore.FreshId(items, ms, id)
    requires InventoryStore.LogsChange(ms, ms', id, v.quantity)
    ensures InventoryStore.Consistent(items + [InventoryStore.CreatedItem(v, id, now)], ms')
  {
    InventoryStore.AddItemKeepsConsistent(items, ms, InventoryStore.CreatedItem(v, id, now), ms');
  }
}
