/** `ItemComparisonService.compareItems`: whether a replica row and the primary's item
    agree on the four item fields. The consumer's older controller declares a copy of the
    same function, with the same body. */
module ItemComparison {
  import opened Wrappers
  import opened Items
  import Text

  /** `description?.trim() || ''`: an absent or null description counts as "". */
  function NormalDescription(d: Field<string>): string {
    if d.Defined? then Text.Trim(d.value) else ""
  }

  /** `x ?? null`: absent and null are the same, every number is itself. */
  function NormalNumber(x: Field<Num>): Option<Num> {
    if x.Defined? then Some(x.value) else None
  }

  /** The four values `compareItems` actually compares. */
  datatype NormalItem = NormalItem(name: string, description: string, price: Option<Num>, quantity: Option<Num>)

  function Normalised(f: ItemFields): NormalItem {
    NormalItem(f.name, NormalDescription(f.description), NormalNumber(f.price), NormalNumber(f.quantity))
  }

  /** The early-return chain: name, then description, then price, then quantity. */
  function CompareItems(consumedItem: ItemFields, apiItem: ItemFields): (r: bool)
    ensures r <==> Normalised(consumedItem) == Normalised(apiItem)
  {
    if consumedItem.name != apiItem.name then false
    else if NormalDescription(consumedItem.description) != NormalDescription(apiItem.description) then false
    else if NormalNumber(consumedItem.price) != NormalNumber(apiItem.price) then false
    else if NormalNumber(consumedItem.quantity) != NormalNumber(apiItem.quantity) then false
    else true
  }

  /** Agreement is an equivalence relation. */
  lemma CompareIsEquivalence(a: ItemFields, b: ItemFields, c: ItemFields)
    ensures CompareItems(a, a)
    ensures CompareItems(a, b) == CompareItems(b, a)
    ensures CompareItems(a, b) && CompareItems(b, c) ==> CompareItems(a, c)
  {
  }

  /** Names are compared as they are: a trailing space is a difference. */
  lemma NameComparedLiterally(a: ItemFields)
    ensures !CompareItems(a, a.(name := a.name + " "))
    ensures !CompareItems(ItemFields("Widget", Undefined, Undefined, Undefined),
                          ItemFields("Widget ", Undefined, Undefined, Undefined))
  {
    assert |a.name + " "| != |a.name|;
    assert "Widget" != "Widget ";
  }

  /** Absent, null, empty and all-whitespace descriptions are one class; padding is ignored. */
  lemma {:induction false} DescriptionEquivalences(a: ItemFields, s: string, p: string, q: string)
    requires Text.AllWhitespace(p) && Text.AllWhitespace(q)
    ensures CompareItems(a.(description := Undefined), a.(description := Null))
    ensures CompareItems(a.(description := Undefined), a.(description := Defined("")))
    ensures Text.AllWhitespace(s) ==> CompareItems(a.(description := Undefined), a.(description := Defined(s)))
    ensures CompareItems(a.(description := Defined(p + s + q)), a.(description := Defined(s)))
  {
    Text.TrimEmptyIffAllWhitespace(s);
    Text.TrimEmptyIffAllWhitespace("");
    Text.TrimIgnoresPadding(p, s, q);
  }

  /** A description that differs once trimmed is a difference. */
  lemma DescriptionDifference(a: ItemFields, s: string, t: string)
    requires Text.Trim(s) != Text.Trim(t)
    ensures !CompareItems(a.(description := Defined(s)), a.(description := Defined(t)))
  {
  }

  /** An absent price equals a null one; 0 equals neither. The same holds for quantity. */
  lemma NumbersAbsentIsNull(a: ItemFields)
    ensures CompareItems(a.(price := Undefined), a.(price := Null))
    ensures !CompareItems(a.(price := Defined(0.0)), a.(price := Undefined))
    ensures !CompareItems(a.(price := Defined(0.0)), a.(price := Null))
    ensures CompareItems(a.(quantity := Undefined), a.(quantity := Null))
    ensures !CompareItems(a.(quantity := Defined(0.0)), a.(quantity := Undefined))
    ensures !CompareItems(a.(quantity := Defined(0.0)), a.(quantity := Null))
  {
  }

  /** The fields that are not compared do not matter: two items agree when they agree
      field by field under the normalisation, and only then. */
  lemma CompareFieldByField(a: ItemFields, b: ItemFields)
    ensures CompareItems(a, b) <==>
      && a.name == b.name
      && NormalDescription(a.description) == NormalDescription(b.description)
      && NormalNumber(a.price) == NormalNumber(b.price)
      && NormalNumber(a.quantity) == NormalNumber(b.quantity)
  {
  }
}
