/** The two display helpers of the utilities file: the status badge colour and the attribute text. */
module Helpers {
  import opened Attributes
  import opened Orders

  /** The class `getStatusColor` falls back to. */
  const DefaultColor := "bg-gray-100 text-gray-800"

  /** The `colors` lookup object of `getStatusColor`, keyed by status name. */
  const StatusColors: map<string, string> := map[
    "Draft" := "bg-gray-100 text-gray-800",
    "Sent" := "bg-blue-100 text-blue-800",
    "Confirmed" := "bg-indigo-100 text-indigo-800",
    "Partially Received" := "bg-yellow-100 text-yellow-800",
    "Received" := "bg-green-100 text-green-800",
    "Cancelled" := "bg-red-100 text-red-800"]

  /** `colors[status] || 'bg-gray-100 text-gray-800'`. */
  function StatusColor(status: string): (c: string)
    ensures c != ""
    ensures (forall s :: status != StatusName(s)) ==> c == DefaultColor
  {
    assert status in StatusColors ==>
      (|| status == StatusName(Draft) || status == StatusName(Sent) || status == StatusName(Confirmed)
       || status == StatusName(PartiallyReceived) || status == StatusName(Received) || status == StatusName(Cancelled));
    if status in StatusColors && StatusColors[status] != "" then StatusColors[status] else DefaultColor
  }

  /** Each status gets the class listed for it. */
  lemma StatusColorOfEachStatus()
    ensures StatusColor(StatusName(Draft)) == "bg-gray-100 text-gray-800"
    ensures StatusColor(StatusName(Sent)) == "bg-blue-100 text-blue-800"
    ensures StatusColor(StatusName(Confirmed)) == "bg-indigo-100 text-indigo-800"
    ensures StatusColor(StatusName(PartiallyReceived)) == "bg-yellow-100 text-yellow-800"
    ensures StatusColor(StatusName(Received)) == "bg-green-100 text-green-800"
    ensures StatusColor(StatusName(Cancelled)) == "bg-red-100 text-red-800"
  {
  }

  /** Two different statuses never share a badge colour. */
  lemma StatusColorsDistinct(s: Status, t: Status)
    requires s != t
    ensures StatusColor(StatusName(s)) != StatusColor(StatusName(t))
  {
    StatusColorOfEachStatus();
  }

  /** Any text that is not a status name is shown in the grey of a draft. */
  lemma UnknownStatusLooksLikeDraft(status: string)
    requires forall s :: status != StatusName(s)
    ensures StatusColor(status) == StatusColor(StatusName(Draft))
  {
    StatusColorOfEachStatus();
  }

  /**
   * The JavaScript value `variantAttributesToString` is handed: a falsy value (`null`,
   * `undefined`, `''`, `0`, `false`), a `Map`, any other object, or a truthy primitive,
   * of which `text` is `String(value)`.
   */
  datatype AttrValue = Falsy | MapInstance(entries: Attrs) | PlainObject(entries: Attrs) | Primitive(text: string)

  /** A truthy primitive never prints as the empty string. */
  predicate IsTruthy(v: AttrValue)
  {
    v.Primitive? ==> v.text != ""
  }

  /** `${k}: ${v}`. */
  function EntryText(e: Entry): string
  {
    e.key + ": " + e.value
  }

  /** `entries.map(([k, v]) => `${k}: ${v}`).join(', ')`. */
  function JoinEntries(a: Attrs): (r: string)
    ensures r == "" <==> a == []
    ensures a != [] ==> EntryText(a[0]) <= r
  {
    if a == [] then ""
    else if |a| == 1 then EntryText(a[0])
    else
      var head := EntryText(a[0]);
      var r := head + ", " + JoinEntries(a[1..]);
      assert r[..|head|] == head;
      assert head <= r;
      r
  }

  /** `variantAttributesToString(attributes)`. */
  function AttributesToString(v: AttrValue): (r: string)
    ensures IsTruthy(v) ==> (r == "" <==> v.Falsy? || ((v.MapInstance? || v.PlainObject?) && v.entries == []))
    ensures (v.MapInstance? || v.PlainObject?) && v.entries != [] ==> EntryText(v.entries[0]) <= r
  {
    match v
    case Falsy => ""
    case MapInstance(entries) => JoinEntries(entries)
    case PlainObject(entries) => JoinEntries(entries)
    case Primitive(text) => text
  }

  /** Joining is associative over the separator, so entries appear in entry order. */
  lemma {:induction false} JoinEntriesConcat(a: Attrs, b: Attrs)
    requires a != [] && b != []
    ensures JoinEntries(a + b) == JoinEntries(a) + ", " + JoinEntries(b)
  {
    assert (a + b)[0] == a[0];
    assert (a + b)[1..] == a[1..] + b;
    if |a| > 1 {
      JoinEntriesConcat(a[1..], b);
    }
  }

  /** What the helper prints, case by case: nothing, the entries joined in order, or the value's text. */
  lemma AttributesToStringCases(v: AttrValue, e: Entry, a: Attrs)
    ensures AttributesToString(Falsy) == ""
    ensures AttributesToString(PlainObject([])) == "" && AttributesToString(MapInstance([])) == ""
    ensures AttributesToString(PlainObject([e])) == e.key + ": " + e.value
    ensures a != [] ==> AttributesToString(PlainObject([e] + a)) == e.key + ": " + e.value + ", " + AttributesToString(PlainObject(a))
    ensures AttributesToString(MapInstance(a)) == AttributesToString(PlainObject(a))
    ensures v.Primitive? ==> AttributesToString(v) == v.text
  {
    if a != [] {
      JoinEntriesConcat([e], a);
    }
  }
}
