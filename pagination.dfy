/** The pagination query parameters (`page`, `limit`, `order`) that a path
    operation receives through the `pagination_dependency` dependency. */
module PaginationParams {
  import opened Wrappers
  import opened Exceptions
  import opened IntText

  /** Sort order; each member's value is its lower-case name. */
  datatype SortOrder = Asc | Desc {
    /** The enum member's value, `SortOrder.asc.value == "asc"`. */
    function Value(): string {
      match this
      case Asc => "asc"
      case Desc => "desc"
    }
  }

  /** `SortOrder(s)`: the member whose value is `s`, if there is one. */
  function ParseSortOrder(s: string): (r: Option<SortOrder>)
    ensures r.Some? ==> r.value.Value() == s
    ensures r.None? ==> forall o: SortOrder :: o.Value() != s
  {
    if s == "asc" then Some(Asc)
    else if s == "desc" then Some(Desc)
    else None
  }

  lemma SortOrderRoundTrip(o: SortOrder)
    ensures ParseSortOrder(o.Value()) == Some(o)
  {
  }

  const DefaultPage: int := 1
  const DefaultLimit: int := 10
  const DefaultOrder: SortOrder := Asc
  /** `page` is declared with `Query(ge=1)`. */
  const MinPage: int := 1

  datatype Pagination = Pagination(page: int, limit: int, order: SortOrder) {
    /** The URL query string parameters for this page. */
    function QueryParams(): (q: map<string, string>)
      ensures q.Keys == {"page", "limit", "order"}
      ensures ParseInt(q["page"]) == Some(page) && ParseInt(q["limit"]) == Some(limit)
      ensures IsCanonicalDecimal(q["page"]) && IsCanonicalDecimal(q["limit"])
      ensures ParseSortOrder(q["order"]) == Some(order) && q["order"] in {"asc", "desc"}
    {
      IntToDecimalRoundTrip(page);
      IntToDecimalRoundTrip(limit);
      SortOrderRoundTrip(order);
      map["page" := IntToDecimal(page), "limit" := IntToDecimal(limit), "order" := order.Value()]
    }
  }

  /** `pagination_dependency`, including the framework's check of the
      declared `ge=1` bound on `page`, which rejects the request before
      the function body runs; `limit` has no bound. */
  function PaginationDependency(page: int := DefaultPage, limit: int := DefaultLimit,
                                order: SortOrder := DefaultOrder): (r: Result<Pagination, Error>)
    ensures r.Success? <==> page >= MinPage
    ensures r.Success? ==> r.value.page == page && r.value.limit == limit && r.value.order == order
    ensures r.Failure? ==> r.error == ValidationError(["page"]) && r.error.StatusCode() == 422
  {
    if page < MinPage then Failure(ValidationError(["page"]))
    else Success(Pagination(page, limit, order))
  }

  /** The fields among `page`, `limit`, `order` whose query value is present
      but unreadable, or out of bounds, in declaration order. */
  function InvalidFields(query: map<string, string>): seq<string> {
    (if "page" in query && (ParseInt(query["page"]).None? || ParseInt(query["page"]).value < MinPage)
     then ["page"] else [])
    + (if "limit" in query && ParseInt(query["limit"]).None? then ["limit"] else [])
    + (if "order" in query && ParseSortOrder(query["order"]).None? then ["order"] else [])
  }

  /** How the dependency's parameters are read from a query string: a
      missing parameter takes its default, and every unreadable or out of
      bounds parameter is reported in one validation error. */
  function PaginationFromQuery(query: map<string, string>): (r: Result<Pagination, Error>)
    ensures r.Failure? <==> InvalidFields(query) != []
    ensures r.Failure? ==> r.error == ValidationError(InvalidFields(query))
    ensures r.Success? ==> r.value.page >= MinPage
    ensures r.Success? ==> && ("page" in query ==> ParseInt(query["page"]) == Some(r.value.page))
                           && ("page" !in query ==> r.value.page == DefaultPage)
    ensures r.Success? ==> && ("limit" in query ==> ParseInt(query["limit"]) == Some(r.value.limit))
                           && ("limit" !in query ==> r.value.limit == DefaultLimit)
    ensures r.Success? ==> && ("order" in query ==> ParseSortOrder(query["order"]) == Some(r.value.order))
                           && ("order" !in query ==> r.value.order == DefaultOrder)
  {
    if InvalidFields(query) != [] then Failure(ValidationError(InvalidFields(query)))
    else
      var page := if "page" in query then ParseInt(query["page"]).value else DefaultPage;
      var limit := if "limit" in query then ParseInt(query["limit"]).value else DefaultLimit;
      var order := if "order" in query then ParseSortOrder(query["order"]).value else DefaultOrder;
      PaginationDependency(page, limit, order)
  }

  /** An empty query string yields the defaults page 1, limit 10, ascending. */
  lemma QueryDefaults()
    ensures PaginationFromQuery(map[]) == Success(Pagination(1, 10, Asc))
  {
  }

  /** Reading back the query parameters of any pagination gives what the
      dependency gives for its fields: the same pagination when its page is
      valid, the same validation error otherwise. */
  lemma QueryParamsRoundTrip(p: Pagination)
    ensures PaginationFromQuery(p.QueryParams()) == PaginationDependency(p.page, p.limit, p.order)
    ensures p.page >= MinPage ==> PaginationFromQuery(p.QueryParams()) == Success(p)
  {
    var q := p.QueryParams();
    assert InvalidFields(q) == (if p.page < MinPage then ["page"] else []);
  }
}
