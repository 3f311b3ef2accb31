/**
 * The `reports` table and the validation of create input (shared/schema.ts).
 * The insert schema is the table's `title` and `content` columns, both
 * `text notNull`, which validate as required strings.
 */
module Schema {
  import opened Wrappers

  /** A row of the `reports` table; `id` is the serial primary key. */
  datatype Report = Report(id: int, title: string, content: string)

  /** What the create endpoint accepts: the two text columns. */
  datatype InsertReport = InsertReport(title: string, content: string)

  /** A parsed JSON request body (numbers are kept as integers). */
  datatype Json =
    | JNull
    | JBool(b: bool)
    | JNumber(n: int)
    | JString(s: string)
    | JArray(items: seq<Json>)
    | JObject(fields: map<string, Json>)

  /** The type a validator reports having received; `Missing` is an absent key. */
  datatype Kind = Missing | Null | Boolean | Number | Text | Array | Object

  /** One validation failure: where it is, what was expected and what was found. */
  datatype Issue = Issue(path: seq<string>, expected: Kind, received: Kind)

  function KindOf(v: Json): Kind {
    match v
    case JNull => Null
    case JBool(_) => Boolean
    case JNumber(_) => Number
    case JString(_) => Text
    case JArray(_) => Array
    case JObject(_) => Object
  }

  function FieldKind(fields: map<string, Json>, key: string): Kind {
    if key in fields then KindOf(fields[key]) else Missing
  }

  /** The issues a required string field raises: none, or one naming the field. */
  function StringField(fields: map<string, Json>, key: string): (issues: seq<Issue>)
    ensures issues == [] <==> FieldKind(fields, key) == Text
    ensures issues != [] ==> issues == [Issue([key], Text, FieldKind(fields, key))]
  {
    if FieldKind(fields, key) == Text then [] else [Issue([key], Text, FieldKind(fields, key))]
  }

  /**
   * `insertReportSchema.parse(body)`: a body that is not an object fails with a
   * single issue at the root; otherwise every field is checked in schema order,
   * `title` before `content`, and all issues found are reported in that order.
   * Keys other than the two columns are dropped.
   */
  function ParseInsertReport(body: Json): (r: Result<InsertReport, seq<Issue>>)
    ensures r.Ok? <==>
      body.JObject? && FieldKind(body.fields, "title") == Text && FieldKind(body.fields, "content") == Text
    ensures r.Ok? ==>
      r.value == InsertReport(body.fields["title"].s, body.fields["content"].s)
    ensures r.Err? ==> 1 <= |r.error| <= 2
    ensures !body.JObject? ==> r == Err([Issue([], Object, KindOf(body))])
    ensures r.Err? && body.JObject? && FieldKind(body.fields, "title") != Text ==>
      r.error[0] == Issue(["title"], Text, FieldKind(body.fields, "title"))
    ensures r.Err? && body.JObject? && FieldKind(body.fields, "title") == Text ==>
      r.error == [Issue(["content"], Text, FieldKind(body.fields, "content"))]
  {
    match body
    case JObject(fields) =>
      var issues := StringField(fields, "title") + StringField(fields, "content");
      if issues == [] then Ok(InsertReport(fields["title"].s, fields["content"].s))
      else Err(issues)
    case _ => Err([Issue([], Object, KindOf(body))])
  }
}
