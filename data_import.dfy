/**
 * The check the Import button applies to the parsed file before the app
 * data is replaced by it.
 */
module DataImport {
  import opened Wrappers
  import opened Copies

  /** A value `JSON.parse` can return. */
  datatype Json = JNull | JBool(b: bool) | JNumber(n: real) | JString(s: string) | JArray(items: seq<Json>) | JObject(members: map<string, Json>)

  /** JavaScript truthiness of a parsed value. */
  predicate Truthy(v: Json) {
    match v
    case JNull => false
    case JBool(b) => b
    case JNumber(n) => n != 0.0
    case JString(s) => s != ""
    case _ => true
  }

  /** `v[key]` for an own property of a parsed object; None is `undefined`. */
  function Property(v: Json, key: string): (r: Option<Json>)
    ensures r.Some? ==> v.JObject? && key in v.members && r.value == v.members[key]
    ensures v.JObject? && key in v.members ==> r.Some?
  {
    if v.JObject? && key in v.members then Some(v.members[key]) else None
  }

  /** The first copy: `obj && Array.isArray(obj.surveys)`. */
  predicate AcceptsFirstCopy(obj: Json)
    ensures AcceptsFirstCopy(obj) <==> obj.JObject? && "surveys" in obj.members && obj.members["surveys"].JArray?
  {
    Truthy(obj) && Property(obj, "surveys").Some? && Property(obj, "surveys").value.JArray?
  }

  /** The second copy: `obj && obj.surveys`. */
  predicate AcceptsSecondCopy(obj: Json)
    ensures AcceptsSecondCopy(obj) <==> obj.JObject? && "surveys" in obj.members && Truthy(obj.members["surveys"])
  {
    Truthy(obj) && Property(obj, "surveys").Some? && Truthy(Property(obj, "surveys").value)
  }

  predicate Accepts(copy: Copy, obj: Json) {
    if copy == FirstCopy then AcceptsFirstCopy(obj) else AcceptsSecondCopy(obj)
  }

  /** Everything the first copy imports the second imports too. */
  lemma FirstCopyIsStricter(obj: Json)
    ensures AcceptsFirstCopy(obj) ==> AcceptsSecondCopy(obj)
  {
  }

  /** The second copy also imports data whose `surveys` is not an array. */
  lemma SecondCopyAcceptsNonArray()
    ensures var obj := JObject(map["surveys" := JBool(true)]);
      !AcceptsFirstCopy(obj) && AcceptsSecondCopy(obj)
  {
    var obj := JObject(map["surveys" := JBool(true)]);
    assert Property(obj, "surveys") == Some(JBool(true));
  }

  datatype ImportOutcome = ParseFailed | InvalidFormat | Declined | Imported(data: Json)

  /**
   * The import handler after the file is read: `parsed` is None when
   * `JSON.parse` throws, `confirmed` the answer to the replace dialog.
   * Only an accepted, confirmed value replaces the data.
   */
  function Import(copy: Copy, parsed: Option<Json>, confirmed: bool): (r: ImportOutcome)
    ensures r.Imported? <==> parsed.Some? && Accepts(copy, parsed.value) && confirmed
    ensures r.Imported? ==> r.data == parsed.value
    ensures r.Imported? && copy == FirstCopy ==> "surveys" in r.data.members && r.data.members["surveys"].JArray?
    ensures r == ParseFailed <==> parsed.None?
    ensures r == InvalidFormat <==> parsed.Some? && !Accepts(copy, parsed.value)
  {
    match parsed
    case None => ParseFailed
    case Some(obj) =>
      if !Accepts(copy, obj) then InvalidFormat
      else if !confirmed then Declined
      else Imported(obj)
  }
}
