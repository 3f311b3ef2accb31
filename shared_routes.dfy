/**
 * The API contract (shared/routes.ts): the route table `api` and the client's
 * URL builder `buildUrl`.
 */
module SharedRoutes {
  import opened Wrappers
  import opened Strings
  import opened Schema

  // ---------------------------------------------------------------- the route table

  datatype HttpMethod = GET | POST

  /** The response schemas the table names: a report array, one report, or `{message}`. */
  datatype Shape = ReportArray | ReportObject | MessageObject

  /** The input schema a route declares. */
  datatype Input = NoInput | InsertReportInput

  /** One entry of `api.reports`: method (`verb`), path template, input and responses by status. */
  datatype Route = Route(verb: HttpMethod, path: string, input: Input, responses: map<int, Shape>)

  const ListRoute: Route := Route(GET, "/api/reports", NoInput, map[200 := ReportArray])
  const GetRoute: Route := Route(GET, "/api/reports/:id", NoInput, map[200 := ReportObject, 404 := MessageObject])
  const CreateRoute: Route := Route(POST, "/api/reports", InsertReportInput, map[201 := ReportObject, 400 := MessageObject])

  /** A response body as the server writes it with `res.json`. */
  datatype Body = ReportList(reports: seq<Report>) | OneReport(report: Report) | MessageBody(message: string)

  datatype Response = Response(status: int, body: Body)

  function ShapeOf(b: Body): Shape {
    match b
    case ReportList(_) => ReportArray
    case OneReport(_) => ReportObject
    case MessageBody(_) => MessageObject
  }

  /** A response is one the route declares: a listed status with that status's shape. */
  predicate Conforms(route: Route, resp: Response) {
    resp.status in route.responses && route.responses[resp.status] == ShapeOf(resp.body)
  }

  /**
   * List and create share a path and differ in method, so no two routes share
   * both; only the get route has a placeholder, and it is `:id`.
   */
  lemma RouteTable()
    ensures ListRoute.path == CreateRoute.path && ListRoute.verb != CreateRoute.verb
    ensures GetRoute.path != ListRoute.path && GetRoute.path != CreateRoute.path
    ensures Includes(GetRoute.path, ":id")
    ensures !Includes(ListRoute.path, ":") && !Includes(CreateRoute.path, ":")
    ensures CreateRoute.input == InsertReportInput && ListRoute.input == NoInput && GetRoute.input == NoInput
  {
    assert OccursAt(GetRoute.path, ":id", 13);
    var path := ListRoute.path;
    assert Lacks(path, ':');
    LacksExcludes(path, ':');
  }

  // ---------------------------------------------------------------- buildUrl

  /** The largest integer a JavaScript number holds exactly (`Number.MAX_SAFE_INTEGER`). */
  const MaxSafeInteger: int := 0x1F_FFFF_FFFF_FFFF

  type SafeInteger = n: int | -MaxSafeInteger <= n <= MaxSafeInteger

  /** A value of the `params` record: `string | number` (numbers: safe integers). */
  datatype ParamValue = Str(s: string) | Num(n: SafeInteger)

  /** One entry of `Object.entries(params)`. */
  type Param = (string, ParamValue)

  /** `String(value)`: a string as it is, a number as its decimal text, which holds no `$`. */
  function ValueString(v: ParamValue): (r: string)
    ensures v.Str? ==> r == v.s
    ensures v.Num? ==> Lacks(r, '$') && ParseInt(r) == Some(v.n as int)
  {
    match v
    case Str(s) => s
    case Num(n) =>
      DecimalLacks(n, '$');
      DecimalRoundTrip(n);
      IntToDecimal(n)
  }

  /** The placeholder a key names in a path template: `:${key}`. */
  function Placeholder(key: string): (p: string)
    ensures |p| == |key| + 1 && p[0] == ':' && p[1..] == key
  {
    ":" + key
  }

  /**
   * The text that replaces a match when `String.prototype.replace` is given a
   * string replacement (GetSubstitution, section 22.1.3.19.1 of ECMA-262, for a
   * pattern with no capture groups): `$$` is `$`, `$&` the matched text, `` $` ``
   * the text before the match, `$'` the text after it; any other `$` is literal.
   */
  function Substitution(repl: string, matched: string, before: string, after: string): (r: string)
    ensures Lacks(repl, '$') ==> r == repl
    decreases |repl|
  {
    if |repl| == 0 then ""
    else if repl[0] == '$' && |repl| >= 2 && repl[1] == '$' then "$" + Substitution(repl[2..], matched, before, after)
    else if repl[0] == '$' && |repl| >= 2 && repl[1] == '&' then matched + Substitution(repl[2..], matched, before, after)
    else if repl[0] == '$' && |repl| >= 2 && repl[1] == '`' then before + Substitution(repl[2..], matched, before, after)
    else if repl[0] == '$' && |repl| >= 2 && repl[1] == '\'' then after + Substitution(repl[2..], matched, before, after)
    else
      assert Lacks(repl, '$') ==> Lacks(repl[1..], '$');
      assert [repl[0]] + repl[1..] == repl;
      [repl[0]] + Substitution(repl[1..], matched, before, after)
  }

  /**
   * `s.replace(pat, repl)` with a string pattern: only the first occurrence is
   * replaced; the text before it and the text after it are kept.
   */
  function ReplaceFirst(s: string, pat: string, repl: string): (r: string)
    ensures IndexOf(s, pat).None? ==> r == s
    ensures IndexOf(s, pat).Some? ==>
      var i := IndexOf(s, pat).value;
      var tail := s[i + |pat|..];
      |r| >= i + |tail| && r[..i] == s[..i] && r[|r| - |tail|..] == tail
    ensures IndexOf(s, pat).Some? && Lacks(repl, '$') ==>
      var i := IndexOf(s, pat).value;
      r == s[..i] + repl + s[i + |pat|..]
  {
    match IndexOf(s, pat)
    case None => s
    case Some(i) =>
      var mid := Substitution(repl, pat, s[..i], s[i + |pat|..]);
      assert (s[..i] + mid + s[i + |pat|..])[..i] == s[..i];
      s[..i] + mid + s[i + |pat|..]
  }

  /** One step of the `forEach` in `buildUrl`: rewrite `:key` if and only if it occurs. */
  function ApplyParam(url: string, p: Param): (r: string)
    ensures !Includes(url, Placeholder(p.0)) ==> r == url
    ensures Includes(url, Placeholder(p.0)) && Lacks(ValueString(p.1), '$') ==>
      var i := IndexOf(url, Placeholder(p.0)).value;
      r == url[..i] + ValueString(p.1) + url[i + |p.0| + 1..]
  {
    var pat := Placeholder(p.0);
    if Includes(url, pat) then ReplaceFirst(url, pat, ValueString(p.1)) else url
  }

  /** The entries applied in order, each to the url the previous ones produced. */
  function ApplyAll(url: string, ps: seq<Param>): (r: string)
    ensures (forall k :: 0 <= k < |ps| ==> !Includes(url, Placeholder(ps[k].0))) ==> r == url
    decreases |ps|
  {
    if |ps| == 0 then url else ApplyParam(ApplyAll(url, ps[..|ps| - 1]), ps[|ps| - 1])
  }

  /**
   * `buildUrl(path, params)`; `params` is absent (`None`) or given as its
   * entries in the order `Object.entries` yields them.
   */
  method BuildUrl(path: string, params: Option<seq<Param>>) returns (url: string)
    ensures params.None? ==> url == path
    ensures params.Some? ==> url == ApplyAll(path, params.value)
  {
    url := path;
    if params.Some? {
      var entries := params.value;
      var i := 0;
      while i < |entries|
        invariant 0 <= i <= |entries|
        invariant url == ApplyAll(path, entries[..i])
      {
        ghost var before := url;
        var (key, value) := entries[i];
        var pat := Placeholder(key);
        if Includes(url, pat) {
          url := ReplaceFirst(url, pat, ValueString(value));
        }
        assert url == ApplyParam(before, entries[i]);
        assert entries[..i + 1][..i] == entries[..i];
        assert ApplyAll(path, entries[..i + 1]) == ApplyParam(ApplyAll(path, entries[..i]), entries[i]);
        i := i + 1;
      }
      assert entries[..|entries|] == entries;
    }
  }

  // ---------------------------------------------------------------- properties of buildUrl

  /** With no entries the path comes back unchanged. */
  lemma NoParams(path: string)
    ensures ApplyAll(path, []) == path
  {
  }

  /**
   * Where the first occurrence of `:key` sits between `before` and `after`,
   * a value without `$` replaces exactly that occurrence: the text before it
   * and everything after it, later occurrences of `:key` included, are kept.
   */
  lemma {:induction false} ReplacesFirstOccurrence(before: string, key: string, after: string, v: ParamValue)
    requires forall j :: 0 <= j < |before| ==> !OccursAt(before + Placeholder(key) + after, Placeholder(key), j)
    requires Lacks(ValueString(v), '$')
    ensures ApplyParam(before + Placeholder(key) + after, (key, v)) == before + ValueString(v) + after
  {
    var pat := Placeholder(key);
    var url := before + pat + after;
    assert OccursAt(url, pat, |before|) by {
      assert url[|before|..|before| + |pat|] == pat;
    }
    var i := IndexOf(url, pat).value;
    assert i == |before|;
    assert url[..i] == before;
    assert url[i + |pat|..] == after;
  }

  /**
   * Matching is a plain substring test: key `id` also rewrites the `:id` at the
   * front of a longer placeholder such as `:idx`.
   */
  lemma PrefixPlaceholder(n: SafeInteger)
    ensures ApplyParam("/items/:idx", ("id", Num(n))) == "/items/" + IntToDecimal(n) + "x"
  {
    var before, after := "/items/", "x";
    assert "/items/:idx" == before + Placeholder("id") + after;
    forall j | 0 <= j < |before| ensures !OccursAt(before + Placeholder("id") + after, Placeholder("id"), j) {
      assert (before + Placeholder("id") + after)[j] == before[j];
    }
    ReplacesFirstOccurrence(before, "id", after, Num(n));
  }

  /** A `$&` in a string value puts the matched placeholder back instead. */
  lemma DollarPatternInValue()
    ensures ApplyParam("/r/:id", ("id", Str("$&"))) == "/r/:id"
  {
    var url := "/r/:id";
    assert OccursAt(url, ":id", 3);
    forall j | 0 <= j < 3 ensures !OccursAt(url, ":id", j) {
      assert url[j] != ':';
    }
    assert IndexOf(url, ":id") == Some(3);
    assert url[..3] == "/r/" && url[6..] == "";
  }

  /** A parameter whose placeholder is absent changes nothing. */
  lemma AbsentKey(url: string, p: Param)
    requires !Includes(url, Placeholder(p.0))
    ensures ApplyParam(url, p) == url
  {
  }

  /** The entries are applied left to right: the first acts on the path itself. */
  lemma {:induction false} ApplyFirstThenRest(url: string, p: Param, ps: seq<Param>)
    ensures ApplyAll(url, [p] + ps) == ApplyAll(ApplyParam(url, p), ps)
    decreases |ps|
  {
    var whole := [p] + ps;
    if |ps| == 0 {
      assert whole[..0] == [];
    } else {
      var init := ps[..|ps| - 1];
      assert whole[..|whole| - 1] == [p] + init;
      assert whole[|whole| - 1] == ps[|ps| - 1];
      ApplyFirstThenRest(url, p, init);
      calc {
        ApplyAll(url, whole);
        ApplyParam(ApplyAll(url, [p] + init), ps[|ps| - 1]);
        ApplyParam(ApplyAll(ApplyParam(url, p), init), ps[|ps| - 1]);
        ApplyAll(ApplyParam(url, p), ps);
      }
    }
  }

  /** Building with `a + b` is building with `a`, then with `b` on the result. */
  lemma {:induction false} ApplyConcat(url: string, a: seq<Param>, b: seq<Param>)
    ensures ApplyAll(url, a + b) == ApplyAll(ApplyAll(url, a), b)
    decreases |b|
  {
    if |b| == 0 {
      assert a + b == a;
    } else {
      assert (a + b)[..|a + b| - 1] == a + b[..|b| - 1];
      ApplyConcat(url, a, b[..|b| - 1]);
    }
  }

  const ReportsPrefix: string := "/api/reports/"

  /**
   * `buildUrl(api.reports.get.path, { id })` is `/api/reports/` and the decimal
   * form of `id`, and that text reads back as `id` (where JavaScript's `Number`,
   * which the server applies to the `:id` segment, agrees on the text of a
   * safe integer).
   */
  lemma ReportUrl(id: SafeInteger)
    ensures ApplyAll(GetRoute.path, [("id", Num(id))]) == ReportsPrefix + IntToDecimal(id)
    ensures ParseInt((ReportsPrefix + IntToDecimal(id))[|ReportsPrefix|..]) == Some(id as int)
  {
    var before, after := ReportsPrefix, "";
    assert GetRoute.path == before + Placeholder("id") + after;
    forall j | 0 <= j < |before| ensures !OccursAt(before + Placeholder("id") + after, Placeholder("id"), j) {
      assert (before + Placeholder("id") + after)[j] == before[j];
    }
    ReplacesFirstOccurrence(before, "id", after, Num(id));
    assert ApplyAll(GetRoute.path, [("id", Num(id))]) == ApplyParam(ApplyAll(GetRoute.path, []), ("id", Num(id)));
    assert (ReportsPrefix + IntToDecimal(id))[|ReportsPrefix|..] == IntToDecimal(id);
    DecimalRoundTrip(id);
  }
}
