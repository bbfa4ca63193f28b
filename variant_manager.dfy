/** The variant editor inside the product form: its list of variants and each variant's attributes. */
module VariantManager {
  import opened Wrappers
  import opened Seqs
  import opened JsNumbers
  import opened Attributes

  /** A variant being edited. Prices stay the raw text of their inputs. */
  datatype Variant = Variant(sku: string, attributes: Attrs, price: string, costPrice: string, stock: int, lowStockThreshold: int)

  /** `emptyVariant`. */
  const EmptyVariant := Variant("", [], "", "", 0, 10)

  /** `addVariant`: one more blank variant at the end. */
  function AddVariant(variants: seq<Variant>): (r: seq<Variant>)
    ensures |r| == |variants| + 1 && r[..|variants|] == variants
    ensures r[|variants|].attributes == [] && r[|variants|].stock == 0 && r[|variants|].lowStockThreshold == 10
    ensures r[|variants|].sku == "" && r[|variants|].price == "" && r[|variants|].costPrice == ""
  {
    variants + [EmptyVariant]
  }

  /** `removeVariant(idx)`: ignored while one variant (or none) is left, else variant `idx` is dropped. */
  function RemoveVariant(variants: seq<Variant>, idx: int): (r: seq<Variant>)
    ensures |variants| <= 1 ==> r == variants
    ensures |variants| > 1 && 0 <= idx < |variants| ==> r == variants[..idx] + variants[idx + 1..]
    ensures |variants| > 1 && !(0 <= idx < |variants|) ==> r == variants
    ensures |variants| >= 1 ==> |r| >= 1
  {
    if |variants| <= 1 then variants
    else
      WithoutIndexSplices(variants, idx);
      WithoutIndex(variants, idx)
  }

  /** Adding a variant and removing it again gives the list back. */
  lemma AddThenRemoveVariant(variants: seq<Variant>)
    requires variants != []
    ensures RemoveVariant(AddVariant(variants), |variants|) == variants
  {
    var added := AddVariant(variants);
    assert added[..|variants|] + added[|variants| + 1..] == variants;
  }

  /**
   * The field one input sets, with its new value (`updateVariant(idx, field, value)`). The
   * stock and threshold inputs hand over `parseInt(text) || 0`, so their edits carry the text.
   */
  datatype VariantEdit = SetSku(sku: string) | SetPrice(price: string) | SetCostPrice(costPrice: string) | SetStock(stockText: string) | SetThreshold(thresholdText: string)

  /** `{ ...variant, [field]: value }`. */
  function Assign(v: Variant, edit: VariantEdit): Variant
  {
    match edit
    case SetSku(s) => v.(sku := s)
    case SetPrice(p) => v.(price := p)
    case SetCostPrice(c) => v.(costPrice := c)
    case SetStock(t) => v.(stock := ParseIntOr(t, 0))
    case SetThreshold(t) => v.(lowStockThreshold := ParseIntOr(t, 0))
  }

  /** `updateVariant`: copy the list and replace variant `idx` by a copy with the one field set. */
  method UpdateVariant(variants: seq<Variant>, idx: int, edit: VariantEdit) returns (updated: seq<Variant>)
    requires 0 <= idx < |variants|
    ensures |updated| == |variants|
    ensures forall j :: 0 <= j < |variants| && j != idx ==> updated[j] == variants[j]
    ensures updated[idx].attributes == variants[idx].attributes
    ensures edit.SetSku? ==> updated[idx] == variants[idx].(sku := edit.sku)
    ensures edit.SetPrice? ==> updated[idx] == variants[idx].(price := edit.price)
    ensures edit.SetCostPrice? ==> updated[idx] == variants[idx].(costPrice := edit.costPrice)
    ensures edit.SetStock? ==> updated[idx] == variants[idx].(stock := ParseIntOr(edit.stockText, 0))
    ensures edit.SetThreshold? ==> updated[idx] == variants[idx].(lowStockThreshold := ParseIntOr(edit.thresholdText, 0))
  {
    updated := variants;
    updated := updated[idx := Assign(updated[idx], edit)];
  }

  /**
   * `updateAttribute(idx, key, value)`: variant `idx` gets a copy of its attributes with
   * `key` set; an existing key keeps its place, a new one goes last.
   */
  method UpdateAttribute(variants: seq<Variant>, idx: int, key: string, value: string) returns (updated: seq<Variant>)
    requires 0 <= idx < |variants|
    ensures |updated| == |variants|
    ensures forall j :: 0 <= j < |variants| && j != idx ==> updated[j] == variants[j]
    ensures updated[idx] == variants[idx].(attributes := updated[idx].attributes)
    ensures ToMap(updated[idx].attributes) == ToMap(variants[idx].attributes)[key := value]
    ensures Keys(updated[idx].attributes) == if key in Keys(variants[idx].attributes) then Keys(variants[idx].attributes) else Keys(variants[idx].attributes) + [key]
    ensures DistinctKeys(variants[idx].attributes) ==> DistinctKeys(updated[idx].attributes)
  {
    updated := variants;
    var attrs := Put(updated[idx].attributes, key, value);
    PutIsUpdate(updated[idx].attributes, key, value);
    PutKeepsOrder(updated[idx].attributes, key, value);
    if DistinctKeys(updated[idx].attributes) {
      PutKeepsDistinct(updated[idx].attributes, key, value);
    }
    updated := updated[idx := updated[idx].(attributes := attrs)];
  }

  /** `addAttribute(idx)` with the prompt's answer: cancelled or empty changes nothing, else the key is set to `''`. */
  method AddAttribute(variants: seq<Variant>, idx: int, answer: Option<string>) returns (updated: seq<Variant>)
    requires 0 <= idx < |variants|
    ensures answer.None? || answer.value == "" ==> updated == variants
    ensures answer.Some? && answer.value != "" ==>
      && |updated| == |variants|
      && (forall j :: 0 <= j < |variants| && j != idx ==> updated[j] == variants[j])
      && updated[idx] == variants[idx].(attributes := updated[idx].attributes)
      && ToMap(updated[idx].attributes) == ToMap(variants[idx].attributes)[answer.value := ""]
      && Keys(updated[idx].attributes) == (if answer.value in Keys(variants[idx].attributes) then Keys(variants[idx].attributes) else Keys(variants[idx].attributes) + [answer.value])
      && (DistinctKeys(variants[idx].attributes) ==> DistinctKeys(updated[idx].attributes))
  {
    if answer.None? || answer.value == "" {
      return variants;
    }
    updated := UpdateAttribute(variants, idx, answer.value, "");
  }

  /** `removeAttribute(idx, key)`: variant `idx` gets a copy of its attributes without `key`. */
  method RemoveAttribute(variants: seq<Variant>, idx: int, key: string) returns (updated: seq<Variant>)
    requires 0 <= idx < |variants|
    ensures |updated| == |variants|
    ensures forall j :: 0 <= j < |variants| && j != idx ==> updated[j] == variants[j]
    ensures updated[idx] == variants[idx].(attributes := updated[idx].attributes)
    ensures updated[idx].attributes == Delete(variants[idx].attributes, key)
    ensures ToMap(updated[idx].attributes) == ToMap(variants[idx].attributes) - {key}
    ensures forall e :: e in updated[idx].attributes <==> e in variants[idx].attributes && e.key != key
    ensures DistinctKeys(variants[idx].attributes) ==> DistinctKeys(updated[idx].attributes)
  {
    updated := variants;
    var attrs := updated[idx].attributes;
    attrs := Delete(attrs, key);
    DeleteIsRemoval(variants[idx].attributes, key);
    if DistinctKeys(variants[idx].attributes) {
      DeleteKeepsDistinct(variants[idx].attributes, key);
    }
    updated := updated[idx := updated[idx].(attributes := attrs)];
  }

  /** Setting an attribute that was not there and then removing it restores the attributes. */
  lemma AddThenRemoveAttribute(a: Attrs, key: string, value: string)
    requires key !in Keys(a)
    ensures Delete(Put(a, key, value), key) == a
  {
    PutKeepsOrder(a, key, value);
    PutAppends(a, key, value);
    DeleteKeepsOrder(a, [Entry(key, value)], key);
    DeleteAbsent(a, key);
  }

  /** A new key is appended after the existing entries. */
  lemma {:induction false} PutAppends(a: Attrs, key: string, value: string)
    requires key !in Keys(a)
    ensures Put(a, key, value) == a + [Entry(key, value)]
  {
    if a != [] {
      assert key != a[0].key && key !in Keys(a[1..]);
      PutAppends(a[1..], key, value);
      assert a == [a[0]] + a[1..];
    }
  }

  /** Deleting a key that is not there changes nothing. */
  lemma {:induction false} DeleteAbsent(a: Attrs, key: string)
    requires key !in Keys(a)
    ensures Delete(a, key) == a
  {
    if a != [] {
      assert key != a[0].key && key !in Keys(a[1..]);
      DeleteAbsent(a[1..], key);
      assert a == [a[0]] + a[1..];
    }
  }

  /** The stock and threshold inputs: a typed number is kept and an empty or blank field counts as 0. */
  lemma CountInputs(v: Variant, n: int, blank: string)
    requires forall i :: 0 <= i < |blank| ==> IsSpace(blank[i])
    ensures Assign(v, SetStock(IntToString(n))) == v.(stock := n)
    ensures Assign(v, SetThreshold(IntToString(n))) == v.(lowStockThreshold := n)
    ensures Assign(v, SetStock(blank)) == v.(stock := 0) && Assign(v, SetThreshold(blank)) == v.(lowStockThreshold := 0)
  {
    ParseIntOrTyped(n, blank, 0);
  }
}
