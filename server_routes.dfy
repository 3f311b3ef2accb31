/**
 * The report endpoints and the startup seed registered by `registerRoutes`
 * (server/routes.ts), over the store behind `storage` (server/storage.ts),
 * kept here as the rows of the `reports` table and the serial's next value.
 */
module ServerRoutes {
  import opened Wrappers
  import opened Schema
  import opened SharedRoutes

  const NotFoundMessage: string := "Report not found"
  const SeedTitle: string := "SWE 261P Project Report"
  const SeedContent: string := "# SWE 261P Project Report: Apache Commons Lang... (See REPORT.md for full content)"

  /** The range of the `serial` id column, a Postgres `integer` (int4). */
  const MinInt4: int := -0x8000_0000
  const MaxInt4: int := 0x7FFF_FFFF

  predicate InInt4(n: int) {
    MinInt4 <= n <= MaxInt4
  }

  /**
   * A failure of the store itself: an opaque fault (connection, constraint),
   * the id sequence past the column's maximum, or a lookup id the `integer`
   * column cannot hold.
   */
  datatype StoreError = Fault(detail: string) | SequenceExhausted | IdOutOfRange(id: int)

  /** What a handler does with a request: answer it, or let an error escape to Express. */
  datatype Outcome = Replied(response: Response) | Threw(error: StoreError)

  ghost predicate UniqueIds(rows: seq<Report>) {
    forall i, j :: 0 <= i < j < |rows| ==> rows[i].id != rows[j].id
  }

  /** `select ... where id = $id`, first row: the report with that id, if any. */
  function FindById(rows: seq<Report>, id: int): (r: Option<Report>)
    ensures r.Some? ==> r.value in rows && r.value.id == id
    ensures r.None? <==> forall k :: 0 <= k < |rows| ==> rows[k].id != id
  {
    if |rows| == 0 then None
    else if rows[0].id == id then Some(rows[0])
    else FindById(rows[1..], id)
  }

  /** With unique ids, looking up a stored report's id finds that very report. */
  lemma {:induction false} FindStored(rows: seq<Report>, k: int)
    requires UniqueIds(rows) && 0 <= k < |rows|
    ensures FindById(rows, rows[k].id) == Some(rows[k])
  {
    if k > 0 {
      assert rows[0].id != rows[k].id;
      assert UniqueIds(rows[1..]);
      assert rows[1..][k - 1] == rows[k];
      FindStored(rows[1..], k - 1);
    }
  }

  /** Appending a report with a fresh id makes it findable and leaves other lookups alone. */
  lemma {:induction false} FindAppended(rows: seq<Report>, r: Report, id: int)
    requires forall k :: 0 <= k < |rows| ==> rows[k].id != r.id
    ensures FindById(rows + [r], id) == if id == r.id then Some(r) else FindById(rows, id)
  {
    if |rows| > 0 {
      assert (rows + [r])[1..] == rows[1..] + [r];
      FindAppended(rows[1..], r, id);
    } else {
      assert rows + [r] == [r];
    }
  }

  /** The storage object: the table's rows in store order and the serial's next value. */
  class ReportStore {
    var rows: seq<Report>
    var nextId: int

    /** Ids are positive, below the next serial value, and unique; the serial stays within int4 (plus one). */
    ghost predicate Valid()
      reads this
    {
      1 <= nextId <= MaxInt4 + 1 &&
      (forall k :: 0 <= k < |rows| ==> 1 <= rows[k].id < nextId) &&
      UniqueIds(rows)
    }

    /** A fresh, empty table whose serial starts at 1. */
    constructor ()
      ensures Valid() && rows == [] && nextId == 1
    {
      rows := [];
      nextId := 1;
    }

    /**
     * `storage.createReport(input)`: `insert ... returning`. Without a fault,
     * and while the serial has a value left, it appends one row with the next
     * serial id and returns it; otherwise nothing is written and the error is
     * returned.
     */
    method CreateReport(input: InsertReport, fault: Option<StoreError>) returns (result: Result<Report, StoreError>)
      requires Valid()
      modifies this
      ensures Valid()
      ensures fault.Some? ==> result == Err(fault.value) && rows == old(rows) && nextId == old(nextId)
      ensures fault.None? && old(nextId) > MaxInt4 ==>
        result == Err(SequenceExhausted) && rows == old(rows) && nextId == old(nextId)
      ensures fault.None? && old(nextId) <= MaxInt4 ==>
        result == Ok(Report(old(nextId), input.title, input.content)) &&
        rows == old(rows) + [result.value] && nextId == old(nextId) + 1
      ensures result.Ok? ==> forall k :: 0 <= k < |old(rows)| ==> old(rows)[k].id != result.value.id
    {
      if fault.Some? {
        return Err(fault.value);
      }
      if nextId > MaxInt4 {
        return Err(SequenceExhausted);
      }
      var r := Report(nextId, input.title, input.content);
      rows := rows + [r];
      nextId := nextId + 1;
      result := Ok(r);
    }
  }

  /** `GET /api/reports`: every row, unfiltered and in store order, with status 200. */
  function HandleList(store: ReportStore): (resp: Response)
    reads store
    ensures Conforms(ListRoute, resp)
    ensures resp.status == 200 && resp.body.ReportList? && resp.body.reports == store.rows
  {
    Response(200, ReportList(store.rows))
  }

  /**
   * `GET /api/reports/:id` (with `id` already converted to a number). An id the
   * `integer` column cannot hold makes the store reject the query, and the error
   * escapes the handler. Otherwise: 200 and the report with that id when there
   * is one, else 404 with the fixed message.
   */
  function HandleGet(store: ReportStore, id: int): (out: Outcome)
    reads store
    ensures !InInt4(id) ==> out == Threw(IdOutOfRange(id))
    ensures InInt4(id) ==> out.Replied? && Conforms(GetRoute, out.response)
    ensures out.Replied? ==>
      (out.response.status == 200 <==> exists k :: 0 <= k < |store.rows| && store.rows[k].id == id)
    ensures out.Replied? && out.response.status == 200 ==>
      out.response.body.OneReport? && out.response.body.report in store.rows && out.response.body.report.id == id
    ensures out.Replied? && out.response.status != 200 ==>
      out.response == Response(404, MessageBody(NotFoundMessage))
  {
    if !InInt4(id) then Threw(IdOutOfRange(id))
    else
      match FindById(store.rows, id)
      case None => Replied(Response(404, MessageBody(NotFoundMessage)))
      case Some(report) => Replied(Response(200, OneReport(report)))
  }

  /** Get answers with the stored report itself for every id the store holds. */
  lemma GetStored(store: ReportStore, k: int)
    requires store.Valid() && 0 <= k < |store.rows|
    ensures HandleGet(store, store.rows[k].id) == Replied(Response(200, OneReport(store.rows[k])))
  {
    FindStored(store.rows, k);
  }

  /** An id within the column's range that the serial has not handed out yet is not found. */
  lemma GetUnissued(store: ReportStore, id: int)
    requires store.Valid() && InInt4(id) && (id < 1 || id >= store.nextId)
    ensures HandleGet(store, id) == Replied(Response(404, MessageBody(NotFoundMessage)))
  {
  }

  /**
   * `POST /api/reports`. The body is validated before the store is touched; a
   * validation failure answers 400 with the first issue's message, rendered by
   * the validator's error map `describe`. A valid body is inserted and answered
   * with 201 and the new row; a store error (a fault, or the serial past its
   * maximum) is re-thrown, never turned into a 400.
   */
  method HandleCreate(store: ReportStore, body: Json, describe: Issue -> string, fault: Option<StoreError>)
    returns (outcome: Outcome)
    requires store.Valid()
    modifies store
    ensures store.Valid()
    ensures ParseInsertReport(body).Err? ==>
      outcome == Replied(Response(400, MessageBody(describe(ParseInsertReport(body).error[0])))) &&
      store.rows == old(store.rows) && store.nextId == old(store.nextId)
    ensures ParseInsertReport(body).Ok? && fault.Some? ==>
      outcome == Threw(fault.value) && store.rows == old(store.rows) && store.nextId == old(store.nextId)
    ensures ParseInsertReport(body).Ok? && fault.None? && old(store.nextId) > MaxInt4 ==>
      outcome == Threw(SequenceExhausted) && store.rows == old(store.rows) && store.nextId == old(store.nextId)
    ensures ParseInsertReport(body).Ok? && fault.None? && old(store.nextId) <= MaxInt4 ==>
      var input := ParseInsertReport(body).value;
      var r := Report(old(store.nextId), input.title, input.content);
      outcome == Replied(Response(201, OneReport(r))) && store.rows == old(store.rows) + [r] &&
      store.nextId == old(store.nextId) + 1
    ensures outcome.Replied? ==> Conforms(CreateRoute, outcome.response)
    ensures outcome.Threw? ==> fault == Some(outcome.error) || outcome.error == SequenceExhausted
    ensures outcome.Replied? && outcome.response.status == 201 ==>
      HandleGet(store, outcome.response.body.report.id) == Replied(Response(200, outcome.response.body))
  {
    var parsed := ParseInsertReport(body);
    if parsed.Err? {
      return Replied(Response(400, MessageBody(describe(parsed.error[0]))));
    }
    var created := store.CreateReport(parsed.value, fault);
    if created.Err? {
      return Threw(created.error);
    }
    assert store.rows[|store.rows| - 1] == created.value;
    GetStored(store, |store.rows| - 1);
    outcome := Replied(Response(201, OneReport(created.value)));
  }

  /**
   * The seed at the end of `registerRoutes`: when the table is empty, insert the
   * default report; otherwise change nothing. A store error is returned (it
   * rejects the startup promise) and then nothing has been written.
   */
  method Seed(store: ReportStore, fault: Option<StoreError>) returns (error: Option<StoreError>)
    requires store.Valid()
    modifies store
    ensures store.Valid()
    ensures old(store.rows) != [] ==>
      error == None && store.rows == old(store.rows) && store.nextId == old(store.nextId)
    ensures old(store.rows) == [] && fault.None? && old(store.nextId) <= MaxInt4 ==>
      error == None && store.rows == [Report(old(store.nextId), SeedTitle, SeedContent)] &&
      store.nextId == old(store.nextId) + 1
    ensures old(store.rows) == [] && fault.Some? ==>
      error == fault && store.rows == [] && store.nextId == old(store.nextId)
    ensures old(store.rows) == [] && fault.None? && old(store.nextId) > MaxInt4 ==>
      error == Some(SequenceExhausted) && store.rows == [] && store.nextId == old(store.nextId)
    ensures error.None? ==> store.rows != []
    ensures |store.rows| == |old(store.rows)| + 1 <==>
      old(store.rows) == [] && fault.None? && old(store.nextId) <= MaxInt4
  {
    var existing := store.rows;
    error := None;
    if |existing| == 0 {
      var created := store.CreateReport(InsertReport(SeedTitle, SeedContent), fault);
      if created.Err? {
        error := Some(created.error);
      }
    }
  }

  /** Seeding a second time, after a seed that succeeded, inserts nothing. */
  method SeedTwice(store: ReportStore, first: Option<StoreError>, second: Option<StoreError>)
    returns (e1: Option<StoreError>, e2: Option<StoreError>)
    requires store.Valid()
    modifies store
    ensures store.Valid()
    ensures e1.None? ==> e2.None?
    ensures e1.None? ==>
      store.rows == (if old(store.rows) == [] then [Report(old(store.nextId), SeedTitle, SeedContent)] else old(store.rows))
  {
    e1 := Seed(store, first);
    e2 := Seed(store, second);
  }
}
