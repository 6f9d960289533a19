/** The scope and authorisation part of `export_reports` (be/main.py): which
    reports a caller may export, as the WHERE clause and parameter list the
    handler assembles. Running the query and building the workbook are not
    part of this model. */
module Export {
  import opened Wrappers
  import opened Reports

  /** The decoded token of the caller: `role`, `ward_id`, `city_id`. */
  datatype Caller = Caller(role: string, wardId: Option<int>, cityId: Option<int>)

  /** The reports an export reads. */
  datatype Scope =
    | Everything                                  // admin, no ward asked for
    | WardOnly(ward: Option<int>)                 // admin asking for a ward, or a ward caller
    | WardOfCity(cityWard: int, city: Option<int>)    // city caller asking for one of its wards
    | WholeCity(city: Option<int>)                // city caller otherwise

  /** Either the scope, or the HTTP status the checks raise. */
  datatype Access = Granted(scope: Scope) | Denied(status: int)

  /** The per-role branch: `wards` maps each known ward to its city. */
  function ScopeOf(caller: Caller, wardParam: Option<int>, wards: map<int, Option<int>>): (a: Access)
    ensures a.Denied? ==> caller.role == "city" && wardParam.Some? && a.status in {403, 404}
    ensures caller.role == "admin" ==> a.Granted?
    ensures a.Granted? && caller.role == "city" ==> forall r :: Selects(a.scope, r) ==> SqlEq(r.cityId, caller.cityId)
    ensures caller.role != "admin" && caller.role != "city" ==>
      a.Granted? && forall r :: Selects(a.scope, r) ==> SqlEq(r.wardId, caller.wardId)
  {
    if caller.role == "admin" then
      if wardParam.Some? then Granted(WardOnly(wardParam)) else Granted(Everything)
    else if caller.role == "city" then
      if wardParam.Some? && wardParam.value > 0 then
        var w := wardParam.value;
        if w !in wards then Denied(404)
        else if wards[w] != caller.cityId then Denied(403)
        else Granted(WardOfCity(w, caller.cityId))
      else Granted(WholeCity(caller.cityId))
    else Granted(WardOnly(caller.wardId))
  }

  // ---------------------------------------------------------------------------
  // What a scope selects

  /** The columns of a report row the WHERE clause looks at. */
  datatype ReportRow = ReportRow(wardId: Option<int>, cityId: Option<int>, printTime: Option<int>)

  /** SQL equality: NULL equals nothing. */
  predicate SqlEq(a: Option<int>, b: Option<int>)
  {
    a.Some? && b.Some? && a.value == b.value
  }

  /** `r.print_time BETWEEN 7 AND 17`, part of every branch. */
  predicate InOpenHours(r: ReportRow)
  {
    r.printTime.Some? && 7 <= r.printTime.value <= 17
  }

  predicate Selects(scope: Scope, r: ReportRow)
  {
    InOpenHours(r) &&
    match scope
    case Everything => true
    case WardOnly(w) => SqlEq(r.wardId, w)
    case WardOfCity(w, c) => SqlEq(r.wardId, Some(w)) && SqlEq(r.cityId, c)
    case WholeCity(c) => SqlEq(r.cityId, c)
  }

  /** No caller sees another caller's reports: a city caller only reports of
      its own city, a ward caller only reports of its own ward, and every
      export only reports printed between 7 and 17 o'clock. */
  lemma ExportStaysInScope(caller: Caller, wardParam: Option<int>, wards: map<int, Option<int>>, r: ReportRow)
    requires ScopeOf(caller, wardParam, wards).Granted?
    requires Selects(ScopeOf(caller, wardParam, wards).scope, r)
    ensures InOpenHours(r)
    ensures caller.role == "city" ==> SqlEq(r.cityId, caller.cityId)
    ensures caller.role != "admin" && caller.role != "city" ==> SqlEq(r.wardId, caller.wardId)
  {
  }

  /** What each role's export selects: an admin everything, or exactly one
      ward when it names one; a city caller naming a positive ward id either
      is refused (404 for an unknown ward, 403 for a ward of another city) or
      gets exactly that ward's reports of its city, and otherwise gets its
      whole city; any other caller gets its own ward, whatever it asks for. */
  lemma ScopeByRole(caller: Caller, wardParam: Option<int>, wards: map<int, Option<int>>, r: ReportRow)
    ensures var a := ScopeOf(caller, wardParam, wards);
      && (caller.role == "admin" ==> a.Granted? && (Selects(a.scope, r) <==>
            InOpenHours(r) && (wardParam.Some? ==> SqlEq(r.wardId, wardParam))))
      && (caller.role == "city" && wardParam.Some? && wardParam.value > 0 ==>
            && (a == Denied(404) <==> wardParam.value !in wards)
            && (a == Denied(403) <==> wardParam.value in wards && wards[wardParam.value] != caller.cityId)
            && (a.Granted? ==> (Selects(a.scope, r) <==>
                  InOpenHours(r) && SqlEq(r.wardId, wardParam) && SqlEq(r.cityId, caller.cityId))))
      && (caller.role == "city" && !(wardParam.Some? && wardParam.value > 0) ==>
            a.Granted? && (Selects(a.scope, r) <==> InOpenHours(r) && SqlEq(r.cityId, caller.cityId)))
      && (caller.role != "admin" && caller.role != "city" ==>
            a == ScopeOf(caller, None, wards) && a.Granted? && (Selects(a.scope, r) <==> InOpenHours(r) && SqlEq(r.wardId, caller.wardId)))
  {
  }

  // ---------------------------------------------------------------------------
  // Assembling the query

  /** The pieces of SQL the handler appends, each with its `%s` placeholders. */
  datatype Clause = WardEquals | CityEquals | OpenHours | DateFrom | DateTo | OrderLimitOffset

  function Placeholders(c: Clause): nat
  {
    match c
    case WardEquals => 1
    case CityEquals => 1
    case OpenHours => 0
    case DateFrom => 1
    case DateTo => 1
    case OrderLimitOffset => 2
  }

  function PlaceholderCount(sql: seq<Clause>): nat
  {
    if sql == [] then 0 else Placeholders(sql[0]) + PlaceholderCount(sql[1..])
  }

  /** A value bound to a placeholder. */
  datatype Param = Id(id: Option<int>) | Text(text: string) | Number(n: int)

  datatype Query = Query(sql: seq<Clause>, params: seq<Param>)

  function ScopeClauses(scope: Scope): seq<Clause>
  {
    match scope
    case Everything => [OpenHours]
    case WardOnly(_) => [WardEquals, OpenHours]
    case WardOfCity(_, _) => [WardEquals, CityEquals, OpenHours]
    case WholeCity(_) => [CityEquals, OpenHours]
  }

  function ScopeParams(scope: Scope): seq<Param>
  {
    match scope
    case Everything => []
    case WardOnly(w) => [Id(w)]
    case WardOfCity(w, c) => [Id(Some(w)), Id(c)]
    case WholeCity(c) => [Id(c)]
  }

  /** The date range applies only when both ends are non-empty strings. */
  predicate DateRangeGiven(startDate: Option<string>, endDate: Option<string>)
  {
    Truthy(startDate) && Truthy(endDate)
  }

  /** The handler's role branch: it either refuses with the status the checks
      raise, or yields the scope's clauses and their parameters, one per
      placeholder. */
  method ScopeFilter(caller: Caller, wardParam: Option<int>, wards: map<int, Option<int>>)
    returns (access: Access, sql: seq<Clause>, params: seq<Param>)
    ensures access == ScopeOf(caller, wardParam, wards)
    ensures access.Granted? ==> sql == ScopeClauses(access.scope) && params == ScopeParams(access.scope)
    ensures access.Granted? ==> PlaceholderCount(sql) == |params|
  {
    if caller.role == "admin" {
      if wardParam.Some? {
        sql, params := [WardEquals, OpenHours], [Id(wardParam)];
        access := Granted(WardOnly(wardParam));
      } else {
        sql, params := [OpenHours], [];
        access := Granted(Everything);
      }
    } else if caller.role == "city" {
      if wardParam.Some? && wardParam.value > 0 {
        var w := wardParam.value;
        if w !in wards {
          return Denied(404), [], [];
        }
        if wards[w] != caller.cityId {
          return Denied(403), [], [];
        }
        sql, params := [WardEquals, CityEquals, OpenHours], [Id(wardParam), Id(caller.cityId)];
        access := Granted(WardOfCity(w, caller.cityId));
      } else {
        sql, params := [CityEquals, OpenHours], [Id(caller.cityId)];
        access := Granted(WholeCity(caller.cityId));
      }
    } else {
      sql, params := [WardEquals, OpenHours], [Id(caller.wardId)];
      access := Granted(WardOnly(caller.wardId));
    }
  }

  /** The handler's query assembly: the role branch picks the scope's clauses
      and parameters, the date range is appended when both ends are given,
      and the ordering with `limit` and `offset` always comes last; every
      placeholder gets exactly one parameter. */
  method BuildExportQuery(caller: Caller, wardParam: Option<int>, wards: map<int, Option<int>>,
                          startDate: Option<string>, endDate: Option<string>, limit: int, offset: int)
    returns (r: Result)
    ensures r.Refused? <==> ScopeOf(caller, wardParam, wards).Denied?
    ensures r.Refused? ==> r.status == ScopeOf(caller, wardParam, wards).status
    ensures r.Built? ==> r.query == ExportQuery(ScopeOf(caller, wardParam, wards).scope, startDate, endDate, limit, offset)
    ensures r.Built? ==> PlaceholderCount(r.query.sql) == |r.query.params|
  {
    var access, sql, params := ScopeFilter(caller, wardParam, wards);
    if access.Denied? {
      return Refused(access.status);
    }
    var query := FinishQuery(Query(sql, params), startDate, endDate, limit, offset);
    r := Built(query);
  }

  /** The tail of the query: the date range when both ends are given, then
      the ordering with `limit` and `offset`; one parameter per placeholder
      added. */
  method FinishQuery(q: Query, startDate: Option<string>, endDate: Option<string>, limit: int, offset: int)
    returns (done: Query)
    ensures done.sql == q.sql + DateClauses(startDate, endDate) + [OrderLimitOffset]
    ensures done.params == q.params + DateParams(startDate, endDate) + [Number(limit), Number(offset)]
    ensures PlaceholderCount(done.sql) == PlaceholderCount(q.sql) + |done.params| - |q.params|
  {
    var sql, params := q.sql, q.params;
    if Truthy(startDate) && Truthy(endDate) {
      PlaceholdersAppend(sql, [DateFrom, DateTo]);
      sql := sql + [DateFrom, DateTo];
      params := params + [Text(startDate.value), Text(endDate.value)];
    }
    PlaceholdersAppend(sql, [OrderLimitOffset]);
    sql := sql + [OrderLimitOffset];
    params := params + [Number(limit), Number(offset)];
    done := Query(sql, params);
  }

  function DateClauses(startDate: Option<string>, endDate: Option<string>): seq<Clause>
  {
    if DateRangeGiven(startDate, endDate) then [DateFrom, DateTo] else []
  }

  function DateParams(startDate: Option<string>, endDate: Option<string>): seq<Param>
  {
    if DateRangeGiven(startDate, endDate) then [Text(startDate.value), Text(endDate.value)] else []
  }

  /** The query a granted export runs. */
  function ExportQuery(scope: Scope, startDate: Option<string>, endDate: Option<string>, limit: int, offset: int): (q: Query)
    ensures PlaceholderCount(q.sql) == |q.params|
    ensures |q.sql| >= 2 && q.sql[|q.sql| - 1] == OrderLimitOffset
    ensures q.sql[|q.sql| - 2] == if DateRangeGiven(startDate, endDate) then DateTo else OpenHours
    ensures |q.params| >= 2 && q.params[|q.params| - 2..] == [Number(limit), Number(offset)]
  {
    var scoped := ScopeClauses(scope) + DateClauses(startDate, endDate);
    PlaceholdersAppend(ScopeClauses(scope), DateClauses(startDate, endDate));
    PlaceholdersAppend(scoped, [OrderLimitOffset]);
    ScopePlaceholders(scope);
    assert PlaceholderCount(DateClauses(startDate, endDate)) == |DateParams(startDate, endDate)| by {
      if DateRangeGiven(startDate, endDate) {
        assert PlaceholderCount([DateFrom, DateTo]) == 2;
      }
    }
    assert PlaceholderCount([OrderLimitOffset]) == 2;
    Query(scoped + [OrderLimitOffset],
          ScopeParams(scope) + DateParams(startDate, endDate) + [Number(limit), Number(offset)])
  }

  /** Each scope binds one parameter per placeholder of its clauses. */
  lemma ScopePlaceholders(scope: Scope)
    ensures PlaceholderCount(ScopeClauses(scope)) == |ScopeParams(scope)|
  {
    match scope
    case Everything =>
    case WardOnly(_) => assert PlaceholderCount([WardEquals, OpenHours]) == 1;
    case WardOfCity(_, _) => assert PlaceholderCount([WardEquals, CityEquals, OpenHours]) == 2;
    case WholeCity(_) => assert PlaceholderCount([CityEquals, OpenHours]) == 1;
  }

  datatype Result = Built(query: Query) | Refused(status: int)

  lemma {:induction false} PlaceholdersAppend(a: seq<Clause>, b: seq<Clause>)
    ensures PlaceholderCount(a + b) == PlaceholderCount(a) + PlaceholderCount(b)
  {
    if a == [] {
      assert a + b == b;
    } else {
      assert (a + b)[1..] == a[1..] + b;
      PlaceholdersAppend(a[1..], b);
    }
  }

  // ---------------------------------------------------------------------------
  // The status the client sees

  /** The status of the response as the handler is written: the 404 and 403
      raised inside the `try` are caught by its `except Exception` and
      replaced by 500. */
  function ExportStatusAsWritten(caller: Caller, wardParam: Option<int>, wards: map<int, Option<int>>): (status: int)
    ensures status in {200, 500}
    ensures status == 200 <==> ScopeOf(caller, wardParam, wards).Granted?
  {
    match ScopeOf(caller, wardParam, wards)
    case Denied(_) => 500
    case Granted(_) => 200
  }

  /** The status the checks evidently mean the client to see. */
  function ExportStatus(caller: Caller, wardParam: Option<int>, wards: map<int, Option<int>>): (status: int)
    ensures status == 404 <==> caller.role == "city" && wardParam.Some? && wardParam.value > 0 && wardParam.value !in wards
    ensures status == 403 <==> caller.role == "city" && wardParam.Some? && wardParam.value > 0
                               && wardParam.value in wards && wards[wardParam.value] != caller.cityId
    ensures status == 200 <==> ScopeOf(caller, wardParam, wards).Granted?
  {
    match ScopeOf(caller, wardParam, wards)
    case Denied(s) => s
    case Granted(_) => 200
  }

  /** A city caller asking for a ward that does not exist is meant to get 404,
      but as written gets 500; likewise 403 for a ward of another city. */
  lemma DeniedExportsReport500()
    ensures ExportStatus(Caller("city", None, Some(1)), Some(5), map[]) == 404
    ensures ExportStatusAsWritten(Caller("city", None, Some(1)), Some(5), map[]) == 500
    ensures ExportStatus(Caller("city", None, Some(1)), Some(5), map[5 := Some(2)]) == 403
    ensures ExportStatusAsWritten(Caller("city", None, Some(1)), Some(5), map[5 := Some(2)]) == 500
  {
  }

  /** As written, every refusal reaches the client as 500, so the client
      cannot tell an unknown ward from a forbidden one or from a failure. */
  lemma AsWrittenHidesRefusals(caller: Caller, wardParam: Option<int>, wards: map<int, Option<int>>)
    ensures ExportStatusAsWritten(caller, wardParam, wards) == 500 <==> ExportStatus(caller, wardParam, wards) in {403, 404}
  {
  }
}
