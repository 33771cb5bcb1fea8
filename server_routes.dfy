/**
 * The request logic of the JSON routes of backend/server.js: the paged,
 * filtered and sorted item query of `GET /api/run/:id`, the id sanitising of
 * `DELETE /api/delete-runs` and the format dispatch of
 * `GET /api/export/:id`. The database itself is left out: a route's result
 * here is the SQL text and parameter list it hands to SQLite, or the reply
 * it sends.
 *
 * Query-string values are strings, "" standing for an absent (or empty)
 * one; numeric query values are taken as already converted by `Number`.
 */
module ServerRoutes {
  import opened Wrappers
  import opened Text

  /** A value bound to a `?` placeholder. */
  datatype SqlParam = PNum(n: int) | PText(s: string)

  /** A JSON error reply `res.status(status).json({ error })`. */
  datatype Failure = Failure(status: int, error: string)

  // ---------------------------------------------------------------------
  // GET /api/run/:id

  /** The query string of `GET /api/run/:id`. `page` and `perPage` are
      `None` when absent or empty. */
  datatype RunQuery = RunQuery(
    page: Option<int>, perPage: Option<int>,
    search: string, priceMin: string, priceMax: string, availability: string,
    sortBy: string, sortOrder: string)

  const DefaultPage: int := 1
  const DefaultPerPage: int := 25

  /** `Number(req.query.page || 1)`. */
  function PageOf(q: RunQuery): int {
    match q.page
    case None => DefaultPage
    case Some(p) => p
  }

  /** `Number(req.query.per_page || 25)`. */
  function PerPageOf(q: RunQuery): int {
    match q.perPage
    case None => DefaultPerPage
    case Some(n) => n
  }

  /** `(page - 1) * per_page`: the number of rows before the requested page. */
  function Offset(page: int, perPage: int): int {
    (page - 1) * perPage
  }

  /**
   * Without paging parameters the first 25 rows are asked for; for pages
   * from 1 on and a non-negative page size, the offset is never negative and
   * consecutive pages are consecutive windows of `perPage` rows, so that no
   * two pages share a row.
   */
  lemma OffsetWindows(q: RunQuery, page: int, perPage: int)
    ensures q.page.None? && q.perPage.None? ==> Offset(PageOf(q), PerPageOf(q)) == 0 && PerPageOf(q) == 25
    ensures page >= 1 && perPage >= 0 ==> Offset(page, perPage) >= 0
    ensures Offset(page + 1, perPage) == Offset(page, perPage) + perPage
    ensures page >= 1 && perPage >= 0 ==> Offset(page, perPage) == perPage * (page - 1)
  {
    if page >= 1 && perPage >= 0 {
      assert (page - 1) * perPage >= 0;
    }
  }

  /** Two different pages of a positive size cover disjoint row ranges. */
  lemma PagesDisjoint(p: int, q: int, perPage: int, row: int)
    requires p < q && perPage > 0
    requires Offset(p, perPage) <= row < Offset(p, perPage) + perPage
    ensures !(Offset(q, perPage) <= row < Offset(q, perPage) + perPage)
  {
    var d := q - p;
    assert Offset(q, perPage) == Offset(p, perPage) + d * perPage by {
      assert (q - 1) * perPage == (p - 1) * perPage + d * perPage;
    }
    assert d * perPage >= perPage by {
      assert d * perPage == perPage + (d - 1) * perPage;
      assert (d - 1) * perPage >= 0;
    }
  }

  /** The four optional filters, in the order the route applies them. */
  datatype Filter = Search | PriceMin | PriceMax | Availability

  const FilterOrder: seq<Filter> := [Search, PriceMin, PriceMax, Availability]

  /** The query value a filter reads. */
  function FilterValue(q: RunQuery, f: Filter): string {
    match f
    case Search => q.search
    case PriceMin => q.priceMin
    case PriceMax => q.priceMax
    case Availability => q.availability
  }

  /** The condition a present filter adds to the WHERE clause. */
  function Condition(f: Filter): string {
    match f
    case Search => " AND title LIKE ?"
    case PriceMin => " AND price_num >= ?"
    case PriceMax => " AND price_num <= ?"
    case Availability => " AND availability LIKE ?"
  }

  /** The parameter a present filter adds: `%value%` for the LIKE filters,
      the raw value for the price bounds. */
  function FilterParam(q: RunQuery, f: Filter): SqlParam {
    match f
    case Search => PText("%" + q.search + "%")
    case PriceMin => PText(q.priceMin)
    case PriceMax => PText(q.priceMax)
    case Availability => PText("%" + q.availability + "%")
  }

  const BaseWhere: string := "WHERE run_id = ?"

  /** The filters of `fs` whose query value is present, in the same order. */
  function Present(q: RunQuery, fs: seq<Filter>): seq<Filter> {
    if |fs| == 0 then []
    else (if FilterValue(q, fs[0]) != "" then [fs[0]] else []) + Present(q, fs[1..])
  }

  /** A filter is kept exactly when it is among `fs` and its value is present. */
  lemma {:induction false} PresentMembers(q: RunQuery, fs: seq<Filter>)
    ensures forall f :: f in Present(q, fs) <==> f in fs && FilterValue(q, f) != ""
    decreases |fs|
  {
    if |fs| > 0 {
      PresentMembers(q, fs[1..]);
      assert forall f :: f in fs <==> f == fs[0] || f in fs[1..];
    }
  }

  lemma PresentCons(q: RunQuery, f: Filter, fs: seq<Filter>)
    ensures Present(q, [f] + fs) == (if FilterValue(q, f) != "" then [f] else []) + Present(q, fs)
  {
    assert ([f] + fs)[0] == f;
    assert ([f] + fs)[1..] == fs;
  }

  /** The conditions of a sequence of filters, concatenated. */
  function Conditions(fs: seq<Filter>): string {
    if |fs| == 0 then "" else Condition(fs[0]) + Conditions(fs[1..])
  }

  /** The parameters of a sequence of filters, in order. */
  function FilterParams(q: RunQuery, fs: seq<Filter>): (r: seq<SqlParam>)
    ensures |r| == |fs|
    ensures forall k :: 0 <= k < |fs| ==> r[k] == FilterParam(q, fs[k])
  {
    seq(|fs|, k requires 0 <= k < |fs| => FilterParam(q, fs[k]))
  }

  /**
   * The `where` / `params` building of `GET /api/run/:id`: start from the
   * run id condition, then for each filter in turn that is present append
   * its condition and push its parameter.
   */
  method BuildWhere(id: int, q: RunQuery) returns (where: string, params: seq<SqlParam>)
    ensures where == BaseWhere + Conditions(Present(q, FilterOrder))
    ensures params == [PNum(id)] + FilterParams(q, Present(q, FilterOrder))
  {
    where := BaseWhere;
    params := [PNum(id)];
    ghost var done: seq<Filter> := [];
    ghost var a := if q.search != "" then [Search] else [];
    ghost var b := if q.priceMin != "" then [PriceMin] else [];
    ghost var c := if q.priceMax != "" then [PriceMax] else [];
    ghost var d := if q.availability != "" then [Availability] else [];
    assert where == BaseWhere + Conditions(done) && params == [PNum(id)] + FilterParams(q, done) by {
      assert BaseWhere + "" == BaseWhere;
    }
    if q.search != "" {
      Step(id, q, where, params, done, Search);
      where := where + " AND title LIKE ?";
      params := params + [PText("%" + q.search + "%")];
      done := done + [Search];
    }
    assert done == a;
    if q.priceMin != "" {
      Step(id, q, where, params, done, PriceMin);
      where := where + " AND price_num >= ?";
      params := params + [PText(q.priceMin)];
      done := done + [PriceMin];
    }
    assert done == a + b;
    if q.priceMax != "" {
      Step(id, q, where, params, done, PriceMax);
      where := where + " AND price_num <= ?";
      params := params + [PText(q.priceMax)];
      done := done + [PriceMax];
    }
    assert done == a + b + c;
    if q.availability != "" {
      Step(id, q, where, params, done, Availability);
      where := where + " AND availability LIKE ?";
      params := params + [PText("%" + q.availability + "%")];
      done := done + [Availability];
    }
    assert done == a + b + c + d;
    PresentInOrder(q);
  }

  /** One `if` of `BuildWhere` keeps `where` and `params` in step with the filters applied so far. */
  lemma Step(id: int, q: RunQuery, where: string, params: seq<SqlParam>, done: seq<Filter>, f: Filter)
    requires where == BaseWhere + Conditions(done) && params == [PNum(id)] + FilterParams(q, done)
    ensures where + Condition(f) == BaseWhere + Conditions(done + [f])
    ensures params + [FilterParam(q, f)] == [PNum(id)] + FilterParams(q, done + [f])
  {
    AppendFilter(q, done, f);
    AppendAssociative(BaseWhere, Conditions(done), Condition(f));
    AppendAssociative([PNum(id)], FilterParams(q, done), [FilterParam(q, f)]);
  }

  /** Appending one filter appends its condition and its parameter. */
  lemma AppendFilter(q: RunQuery, fs: seq<Filter>, f: Filter)
    ensures Conditions(fs + [f]) == Conditions(fs) + Condition(f)
    ensures FilterParams(q, fs + [f]) == FilterParams(q, fs) + [FilterParam(q, f)]
  {
    ConditionsAppend(fs, [f]);
  }

  lemma {:induction false} ConditionsAppend(a: seq<Filter>, b: seq<Filter>)
    ensures Conditions(a + b) == Conditions(a) + Conditions(b)
    decreases |a|
  {
    if |a| == 0 {
      assert a + b == b;
    } else {
      assert (a + b)[1..] == a[1..] + b;
      ConditionsAppend(a[1..], b);
    }
  }

  /** `Present` over the fixed order, spelled out filter by filter. */
  lemma PresentInOrder(q: RunQuery)
    ensures Present(q, FilterOrder)
            == (if q.search != "" then [Search] else [])
               + (if q.priceMin != "" then [PriceMin] else [])
               + (if q.priceMax != "" then [PriceMax] else [])
               + (if q.availability != "" then [Availability] else [])
  {
    var a := if q.search != "" then [Search] else [];
    var b := if q.priceMin != "" then [PriceMin] else [];
    var c := if q.priceMax != "" then [PriceMax] else [];
    var d := if q.availability != "" then [Availability] else [];
    var s4 := [Availability];
    var s3 := [PriceMax] + s4;
    var s2 := [PriceMin] + s3;
    assert FilterOrder == [Search] + s2;
    assert Present(q, s4) == d by {
      PresentCons(q, Availability, []);
      assert [Availability] + [] == s4;
    }
    assert Present(q, s3) == c + d by {
      PresentCons(q, PriceMax, s4);
    }
    assert Present(q, s2) == b + (c + d) by {
      PresentCons(q, PriceMin, s3);
    }
    assert Present(q, FilterOrder) == a + (b + (c + d)) by {
      PresentCons(q, Search, s2);
    }
    AppendLeft(a, b, c, d);
  }

  lemma AppendLeft<T>(a: seq<T>, b: seq<T>, c: seq<T>, d: seq<T>)
    ensures a + (b + (c + d)) == a + b + c + d
  {
  }

  /** Each condition carries exactly one placeholder, at its end. */
  lemma ConditionPlaceholder(f: Filter)
    ensures CountChar(Condition(f), '?') == 1
  {
    match f
    case Search =>
      assert Condition(f) == " AND title LIKE " + "?";
      CountCharOnce(" AND title LIKE ", '?');
    case PriceMin =>
      assert Condition(f) == " AND price_num >= " + "?";
      CountCharOnce(" AND price_num >= ", '?');
    case PriceMax =>
      assert Condition(f) == " AND price_num <= " + "?";
      CountCharOnce(" AND price_num <= ", '?');
    case Availability =>
      assert Condition(f) == " AND availability LIKE " + "?";
      CountCharOnce(" AND availability LIKE ", '?');
  }

  lemma {:induction false} ConditionsPlaceholders(fs: seq<Filter>)
    ensures CountChar(Conditions(fs), '?') == |fs|
    decreases |fs|
  {
    if |fs| > 0 {
      ConditionsPlaceholders(fs[1..]);
      CountCharAppend(Condition(fs[0]), Conditions(fs[1..]), '?');
      ConditionPlaceholder(fs[0]);
    }
  }

  /**
   * The WHERE clause holds exactly as many placeholders as `params` has
   * entries; one condition and one parameter come from each filter that is
   * present, and only from those, in the order search, price_min,
   * price_max, availability.
   */
  lemma WherePlaceholders(id: int, q: RunQuery)
    ensures var fs := Present(q, FilterOrder);
      && CountChar(BaseWhere + Conditions(fs), '?') == 1 + |FilterParams(q, fs)|
      && (forall f :: f in fs <==> FilterValue(q, f) != "")
  {
    var fs := Present(q, FilterOrder);
    ConditionsPlaceholders(fs);
    CountCharAppend(BaseWhere, Conditions(fs), '?');
    BasePlaceholder();
    PresentMembers(q, FilterOrder);
    EveryFilterInOrder();
  }

  /** The run id condition carries one placeholder. */
  lemma BasePlaceholder()
    ensures CountChar(BaseWhere, '?') == 1
  {
    assert BaseWhere == "WHERE run_id = " + "?";
    CountCharOnce("WHERE run_id = ", '?');
  }

  lemma EveryFilterInOrder()
    ensures forall f :: f in FilterOrder
  {
    forall f ensures f in FilterOrder {
      assert FilterOrder[Rank(f)] == f;
    }
  }

  /** The position of a filter in `FilterOrder`. */
  function Rank(f: Filter): (r: nat)
    ensures r < |FilterOrder|
  {
    match f
    case Search => 0
    case PriceMin => 1
    case PriceMax => 2
    case Availability => 3
  }

  const AllowedSort: seq<string> := ["title", "price_num", "availability", "category"]

  /** `allowedSort.includes(sortBy) ? sortBy : 'id'`. */
  function SortColumn(sortBy: string): (r: string)
    ensures r in AllowedSort || r == "id"
  {
    if sortBy in AllowedSort then sortBy else "id"
  }

  /** `sortOrder && sortOrder.toUpperCase() === 'ASC' ? 'ASC' : 'DESC'`. */
  function SortOrder(sortOrder: string): (r: string)
    ensures r == "ASC" || r == "DESC"
  {
    if sortOrder != "" && ToUpper(sortOrder) == "ASC" then "ASC" else "DESC"
  }

  /** A whitelisted column is used as given; anything else sorts by id. */
  lemma SortColumnChoice(sortBy: string)
    ensures sortBy in AllowedSort ==> SortColumn(sortBy) == sortBy
    ensures sortBy !in AllowedSort ==> SortColumn(sortBy) == "id"
  {
  }

  /**
   * The order is ascending exactly for the three-letter spellings of "asc"
   * in any mix of cases, where the 's' may also be the long s (U+017F),
   * whose upper case is 'S'.
   */
  lemma SortOrderAscending(sortOrder: string)
    ensures SortOrder(sortOrder) == "ASC" <==>
              && |sortOrder| == 3
              && (sortOrder[0] == 'a' || sortOrder[0] == 'A')
              && (sortOrder[1] == 's' || sortOrder[1] == 'S' || sortOrder[1] == '\U{17F}')
              && (sortOrder[2] == 'c' || sortOrder[2] == 'C')
  {
    if SortOrder(sortOrder) == "ASC" {
      var u := ToUpper(sortOrder);
      assert u[0] == 'A' && u[1] == 'S' && u[2] == 'C';
      assert UpperChar(sortOrder[0]) == 'A';
      assert UpperChar(sortOrder[1]) == 'S';
      assert UpperChar(sortOrder[2]) == 'C';
    }
    if |sortOrder| == 3
              && (sortOrder[0] == 'a' || sortOrder[0] == 'A')
              && (sortOrder[1] == 's' || sortOrder[1] == 'S' || sortOrder[1] == '\U{17F}')
              && (sortOrder[2] == 'c' || sortOrder[2] == 'C') {
      assert ToUpper(sortOrder) == "ASC";
    }
  }

  /** The item query: the SQL text and its parameters, `per_page` and `offset` last. */
  method RunItemsQuery(id: int, q: RunQuery) returns (sql: string, params: seq<SqlParam>)
    ensures CountChar(sql, '?') == |params|
    ensures |params| >= 3 && params[0] == PNum(id)
    ensures params[|params| - 2..] == [PNum(PerPageOf(q)), PNum(Offset(PageOf(q), PerPageOf(q)))]
    ensures sql == ItemsSql(BaseWhere + Conditions(Present(q, FilterOrder)), SortColumn(q.sortBy), SortOrder(q.sortOrder))
  {
    var where, filterParams := BuildWhere(id, q);
    var page := PageOf(q);
    var perPage := PerPageOf(q);
    var offset := Offset(page, perPage);
    var sortBy := SortColumn(q.sortBy);
    var sortOrder := SortOrder(q.sortOrder);
    sql := "SELECT * FROM items " + where + " ORDER BY " + sortBy + " " + sortOrder + " LIMIT ? OFFSET ?";
    params := filterParams + [PNum(perPage), PNum(offset)];
    WherePlaceholders(id, q);
    SqlPlaceholders(where, sortBy, sortOrder);
  }

  /** `SELECT * FROM items ${where} ORDER BY ${sortBy} ${sortOrder} LIMIT ? OFFSET ?`. */
  function ItemsSql(where: string, sortBy: string, sortOrder: string): string {
    "SELECT * FROM items " + where + " ORDER BY " + sortBy + " " + sortOrder + " LIMIT ? OFFSET ?"
  }

  /** The statement around a WHERE clause adds two placeholders, provided the
      ORDER BY column and direction carry none, which the whitelist ensures. */
  lemma SqlPlaceholders(where: string, sortBy: string, sortOrder: string)
    requires sortBy in AllowedSort || sortBy == "id"
    requires sortOrder == "ASC" || sortOrder == "DESC"
    ensures CountChar(ItemsSql(where, sortBy, sortOrder), '?') == CountChar(where, '?') + 2
  {
    SortWithoutPlaceholders(sortBy, sortOrder);
    assert " LIMIT ? OFFSET ?" == " LIMIT " + "?" + " OFFSET " + "?";
    CountAround("SELECT * FROM items ", where, " ORDER BY ", sortBy, " ", sortOrder, " LIMIT ", " OFFSET ");
  }

  /** A whitelisted column and a sort direction contain no `?`. */
  lemma SortWithoutPlaceholders(sortBy: string, sortOrder: string)
    requires sortBy in AllowedSort || sortBy == "id"
    requires sortOrder == "ASC" || sortOrder == "DESC"
    ensures '?' !in sortBy && '?' !in sortOrder
  {
    assert AllowedSort == ["title", "price_num", "availability", "category"];
  }

  /** Placeholders of text assembled around `where` from pieces without any,
      ending with two placeholders. */
  lemma CountAround(a: string, where: string, b: string, sortBy: string, sp: string, sortOrder: string,
                    limit: string, offset: string)
    requires '?' !in a && '?' !in b && '?' !in sortBy && '?' !in sp && '?' !in sortOrder
    requires '?' !in limit && '?' !in offset
    ensures CountChar(a + where + b + sortBy + sp + sortOrder + (limit + "?" + offset + "?"), '?')
            == CountChar(where, '?') + 2
  {
    CountCharAbsent(a, '?');
    CountCharAbsent(b, '?');
    CountCharAbsent(sortBy, '?');
    CountCharAbsent(sp, '?');
    CountCharAbsent(sortOrder, '?');
    CountCharOnce(limit, '?');
    CountCharOnce(offset, '?');
    CountCharAppend(limit + "?", offset + "?", '?');
    AppendAssociative(limit + "?", offset, "?");
    CountPieces(a, where, b, sortBy, sp, sortOrder, limit + "?" + offset + "?", '?');
  }

  /** Counting over seven pieces of text, piece by piece. */
  lemma CountPieces(a: string, b: string, c: string, d: string, e: string, f: string, g: string, x: char)
    ensures CountChar(a + b + c + d + e + f + g, x)
            == CountChar(a, x) + CountChar(b, x) + CountChar(c, x) + CountChar(d, x)
               + CountChar(e, x) + CountChar(f, x) + CountChar(g, x)
  {
    CountCharAppend(a, b, x);
    CountCharAppend(a + b, c, x);
    CountCharAppend(a + b + c, d, x);
    CountCharAppend(a + b + c + d, e, x);
    CountCharAppend(a + b + c + d + e, f, x);
    CountCharAppend(a + b + c + d + e + f, g, x);
  }

  // ---------------------------------------------------------------------
  // DELETE /api/delete-runs

  /** The result of `Number(x)` for one element of `ids`; fractions are left out. */
  datatype NumValue = Num(n: int) | NaN

  /** `.filter(Boolean)` on numbers: 0 and NaN are dropped, order is kept. */
  function KeepTruthy(xs: seq<NumValue>): (r: seq<int>)
    ensures |r| <= |xs|
    ensures forall k :: 0 <= k < |r| ==> r[k] != 0
    ensures forall n :: n in r <==> n != 0 && Num(n) in xs
  {
    if |xs| == 0 then []
    else (if xs[0].Num? && xs[0].n != 0 then [xs[0].n] else []) + KeepTruthy(xs[1..])
  }

  /** Filtering distributes over concatenation, so the kept ids stay in request order. */
  lemma {:induction false} KeepTruthyAppend(a: seq<NumValue>, b: seq<NumValue>)
    ensures KeepTruthy(a + b) == KeepTruthy(a) + KeepTruthy(b)
    decreases |a|
  {
    if |a| == 0 {
      assert a + b == b;
    } else {
      assert (a + b)[1..] == a[1..] + b;
      KeepTruthyAppend(a[1..], b);
    }
  }

  /** `Array.isArray(ids) ? ids.map(Number).filter(Boolean) : []`; `None` when
      `ids` is not an array. */
  function DeleteIds(ids: Option<seq<NumValue>>): seq<int> {
    match ids
    case None => []
    case Some(xs) => KeepTruthy(xs)
  }

  /** `ids.map(() => '?').join(',')`. */
  function Placeholders(n: nat): string {
    Join(seq(n, _ => "?"), ",")
  }

  /** One more id puts one more `?,` in front. */
  lemma PlaceholdersCons(n: nat)
    requires n >= 1
    ensures Placeholders(n + 1) == "?," + Placeholders(n)
  {
    var qs := seq(n + 1, _ => "?");
    assert qs[1..] == seq(n, _ => "?");
  }

  /** The placeholder list has one `?` per id. */
  lemma {:induction false} PlaceholdersCount(n: nat)
    ensures CountChar(Placeholders(n), '?') == n
    ensures n > 0 ==> |Placeholders(n)| == 2 * n - 1
    decreases n
  {
    if n == 1 {
      assert Placeholders(n) == "?";
    } else if n > 1 {
      PlaceholdersCount(n - 1);
      PlaceholdersCons(n - 1);
      CountCharAppend("?,", Placeholders(n - 1), '?');
    }
  }

  /** The list alternates `?` and `,`, starting and ending with `?`. */
  lemma {:induction false} PlaceholdersAlternate(n: nat)
    ensures forall k :: 0 <= k < |Placeholders(n)| ==> Placeholders(n)[k] == (if k % 2 == 0 then '?' else ',')
    decreases n
  {
    if n == 1 {
      assert Placeholders(n) == "?";
    } else if n > 1 {
      PlaceholdersAlternate(n - 1);
      PlaceholdersCons(n - 1);
      var p := Placeholders(n - 1);
      forall k | 0 <= k < |Placeholders(n)|
        ensures Placeholders(n)[k] == (if k % 2 == 0 then '?' else ',')
      {
        if k >= 2 {
          assert Placeholders(n)[k] == p[k - 2];
        }
      }
    }
  }

  /** The SELECT of the runs to delete. */
  datatype DeleteQuery = DeleteQuery(sql: string, params: seq<int>)

  /** `DELETE /api/delete-runs`: 400 'No ids' when nothing usable is left,
      otherwise the lookup of the runs to delete. */
  function DeleteRuns(ids: Option<seq<NumValue>>): (r: Result<DeleteQuery, Failure>)
  {
    var kept := DeleteIds(ids);
    if |kept| == 0 then Err(Failure(400, "No ids"))
    else Ok(DeleteQuery("SELECT id,csv_path FROM runs WHERE id IN (" + Placeholders(|kept|) + ")", kept))
  }

  /**
   * The reply is 400 'No ids' exactly when no non-zero number is among the
   * ids (or they are not an array).
   */
  lemma DeleteRunsRejects(ids: Option<seq<NumValue>>)
    ensures DeleteRuns(ids).Err? <==> ids.None? || forall n :: Num(n) in ids.value ==> n == 0
    ensures DeleteRuns(ids).Err? ==> DeleteRuns(ids).error == Failure(400, "No ids")
  {
    var kept := DeleteIds(ids);
    if ids.Some? && |kept| > 0 {
      assert kept[0] in kept;
    }
  }

  /** Otherwise the query binds exactly the non-zero ids, in order, with one placeholder each. */
  lemma DeleteRunsQuery(ids: Option<seq<NumValue>>)
    requires DeleteRuns(ids).Ok?
    ensures DeleteRuns(ids).value.params == DeleteIds(ids)
    ensures CountChar(DeleteRuns(ids).value.sql, '?') == |DeleteRuns(ids).value.params|
    ensures forall k :: 0 <= k < |DeleteRuns(ids).value.params| ==> DeleteRuns(ids).value.params[k] != 0
  {
    DeleteSqlPlaceholders(|DeleteIds(ids)|);
  }

  lemma DeleteSqlPlaceholders(n: nat)
    ensures CountChar("SELECT id,csv_path FROM runs WHERE id IN (" + Placeholders(n) + ")", '?') == n
  {
    PlaceholdersCount(n);
    CountWrapped("SELECT id,csv_path FROM runs WHERE id IN (", Placeholders(n), ")");
  }

  /** Text without `?` around a middle part counts the middle part's `?`. */
  lemma CountWrapped(a: string, mid: string, b: string)
    requires '?' !in a && '?' !in b
    ensures CountChar(a + mid + b, '?') == CountChar(mid, '?')
  {
    CountCharAbsent(a, '?');
    CountCharAbsent(b, '?');
    CountCharAppend(a, mid, '?');
    CountCharAppend(a + mid, b, '?');
  }

  // ---------------------------------------------------------------------
  // GET /api/export/:id

  datatype ExportFormat = Csv | Xlsx | Pdf

  /** The file an export sends: its format, attachment name and content type. */
  datatype Attachment = Attachment(format: ExportFormat, filename: string, contentType: string)

  /** `(req.query.format || 'csv').toLowerCase()`. */
  function FormatName(format: string): string {
    ToLower(if format == "" then "csv" else format)
  }

  function Extension(f: ExportFormat): string {
    match f
    case Csv => "csv"
    case Xlsx => "xlsx"
    case Pdf => "pdf"
  }

  function ContentType(f: ExportFormat): string {
    match f
    case Csv => "text/csv"
    case Xlsx => "application/vnd.openxmlformats-officedocument.spreadsheetml.sheet"
    case Pdf => "application/pdf"
  }

  /** The format a lower-cased name selects, if any. */
  function FormatFor(name: string): (r: Option<ExportFormat>)
    ensures r.Some? ==> Extension(r.value) == name
    ensures r.None? ==> name != "csv" && name != "xlsx" && name != "pdf"
  {
    if name == "csv" then Some(Csv)
    else if name == "xlsx" then Some(Xlsx)
    else if name == "pdf" then Some(Pdf)
    else None
  }

  /**
   * `GET /api/export/:id`: `rows` is the number of item rows of the run, or
   * `None` when the query fails. A failed query is a 500, an empty run a 404
   * whatever the format, an unknown format a 400; otherwise the file
   * `run_<id>.<ext>`.
   */
  function Export(id: int, format: string, rows: Option<nat>): Result<Attachment, Failure> {
    match rows
    case None => Err(Failure(500, "DB error"))
    case Some(count) =>
      if count == 0 then Err(Failure(404, "No items"))
      else match FormatFor(FormatName(format))
        case None => Err(Failure(400, "Unsupported format"))
        case Some(f) => Ok(Attachment(f, "run_" + IntToString(id) + "." + Extension(f), ContentType(f)))
  }

  /** Lower-casing twice is lower-casing once. */
  lemma ToLowerIdempotent(s: string)
    ensures ToLower(ToLower(s)) == ToLower(s)
  {
  }

  /**
   * Export dispatch: a file is produced exactly for a non-empty run whose
   * format, lower-cased (csv when absent), is csv, xlsx or pdf, and it is
   * named after the run with that extension; a failed query is a 500, an
   * empty run a 404 and any other format a 400.
   */
  lemma ExportDispatch(id: int, format: string, rows: Option<nat>)
    ensures Export(id, format, rows).Ok? <==>
              rows.Some? && rows.value > 0 && FormatName(format) in ["csv", "xlsx", "pdf"]
    ensures Export(id, format, rows).Ok? ==>
              var a := Export(id, format, rows).value;
              Extension(a.format) == FormatName(format) && a.filename == "run_" + IntToString(id) + "." + FormatName(format)
    ensures rows.None? ==> Export(id, format, rows) == Err(Failure(500, "DB error"))
    ensures rows == Some(0) ==> Export(id, format, rows) == Err(Failure(404, "No items"))
    ensures rows.Some? && rows.value > 0 && FormatName(format) !in ["csv", "xlsx", "pdf"] ==>
              Export(id, format, rows) == Err(Failure(400, "Unsupported format"))
  {
  }

  /** The format is case-insensitive, and an absent one means csv. */
  lemma ExportFormatCase(id: int, format: string, rows: Option<nat>)
    ensures Export(id, format, rows) == Export(id, ToLower(format), rows)
    ensures Export(id, "", rows) == Export(id, "csv", rows)
  {
    ToLowerIdempotent(format);
    assert ToLower("csv") == "csv";
    if format != "" {
      assert ToLower(format) != "";
    }
  }
}
