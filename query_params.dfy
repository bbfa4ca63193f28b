/** The `params` object a list page sends with its `GET` request. */
module QueryParams {

  /** A parameter value: the page number and limit are numbers, filters are text. */
  datatype Param = Num(n: int) | Text(s: string)

  type Params = map<string, Param>

  /** `params` is `{ page, limit }`, plus `[key]: value` exactly when the filter text is non-empty. */
  predicate IsPageQuery(params: Params, page: int, limit: int, key: string, value: string)
  {
    && params.Keys == (if value == "" then {"page", "limit"} else {"page", "limit", key})
    && params["page"] == Num(page)
    && params["limit"] == Num(limit)
    && (value != "" ==> params[key] == Text(value))
  }

  /** `const params = { page, limit }; if (value) params[key] = value;`. */
  method PageQuery(page: int, limit: int, key: string, value: string) returns (params: Params)
    requires key != "page" && key != "limit"
    ensures IsPageQuery(params, page, limit, key, value)
  {
    params := map["page" := Num(page), "limit" := Num(limit)];
    if value != "" {
      params := params[key := Text(value)];
    }
  }

  /** The server can read the page and the filter back from the parameters: distinct states give distinct queries. */
  lemma PageQueryDetermines(params: Params, page: int, page': int, limit: int, key: string, value: string, value': string)
    requires key != "page" && key != "limit"
    requires IsPageQuery(params, page, limit, key, value) && IsPageQuery(params, page', limit, key, value')
    ensures page == page' && value == value'
  {
  }
}
