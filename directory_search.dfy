/** `directory_search`: a GET on the domain directory with the caller's
    query, a fixed read mask and source, a bounded page size, and an
    optional page token. */
module DirectorySearch {
  import opened Wrappers
  import opened JsonValues
  import opened Text
  import opened Http
  import opened Schema

  const ReadMask := "names,emailAddresses,phoneNumbers,organizations,photos"
  const DirectorySource := "DIRECTORY_SOURCE_TYPE_DOMAIN_PROFILE"
  const SearchPath := "/people:searchDirectoryPeople"
  const MaxPageSize := 500
  const DefaultPageSize := 10

  /** The arguments as the caller passes them; `query` is required. */
  datatype SearchArgs = SearchArgs(query: Option<string>, pageSize: Option<int>, pageToken: Option<string>)

  /** The arguments once validated and defaulted. */
  datatype SearchInput = SearchInput(query: string, pageSize: int, pageToken: Option<string>)

  /** Schema check: the query must be given; the page size defaults to 10
      and must lie in [1, 500]. */
  function ValidateSearchArgs(a: SearchArgs): (r: Result<SearchInput, ValidationError>)
    ensures r.Success? <==> a.query.Some? && (a.pageSize.None? || 1 <= a.pageSize.value <= MaxPageSize)
    ensures r.Success? ==> 1 <= r.value.pageSize <= MaxPageSize
    ensures r.Success? ==> r.value == SearchInput(a.query.value, a.pageSize.GetOr(DefaultPageSize), a.pageToken)
    ensures a.query.None? ==> r == Failure(MissingField("query"))
  {
    match Required("query", a.query)
    case Failure(e) => Failure(e)
    case Success(query) =>
      match PageSize(a.pageSize, MaxPageSize, DefaultPageSize)
      case Failure(e) => Failure(e)
      case Success(size) => Success(SearchInput(query, size, a.pageToken))
  }

  /** The query search sends: the four fixed-position parameters, then the
      page token if it is non-empty. */
  function SearchQuery(input: SearchInput): seq<Param>
    requires 1 <= input.pageSize
  {
    [("query", input.query), ("readMask", ReadMask), ("sources", DirectorySource), ("pageSize", Decimal(input.pageSize))]
    + (if Truthy(input.pageToken) then [("pageToken", input.pageToken.value)] else [])
  }

  function SearchRequest(input: SearchInput): Request
    requires 1 <= input.pageSize
  {
    Request(GET, SearchPath, SearchQuery(input), None)
  }

  /** The handler: four unconditional `set` calls and one conditional one. */
  method BuildSearchRequest(input: SearchInput) returns (req: Request)
    requires 1 <= input.pageSize <= MaxPageSize
    ensures req == SearchRequest(input)
    ensures req.verb == GET && req.path == "/people:searchDirectoryPeople" && req.body.None?
  {
    var params := new SearchParams();
    params.Set("query", input.query);
    SetParamAppends(params.entries, "readMask", ReadMask);
    params.Set("readMask", ReadMask);
    SetParamAppends(params.entries, "sources", DirectorySource);
    params.Set("sources", DirectorySource);
    assert !HasParam(params.entries, "pageSize");
    SetParamAppends(params.entries, "pageSize", Decimal(input.pageSize));
    params.Set("pageSize", Decimal(input.pageSize));
    assert params.entries == [("query", input.query), ("readMask", ReadMask), ("sources", DirectorySource), ("pageSize", Decimal(input.pageSize))];

    if Truthy(input.pageToken) {
      SetParamAppends(params.entries, "pageToken", input.pageToken.value);
      params.Set("pageToken", input.pageToken.value);
    }

    req := Request(GET, SearchPath, params.entries, None);
  }

  /** What the server reads back from the query: the caller's query
      verbatim, the fixed mask and source, the page size as a decimal
      that parses back to it, and the page token exactly when it is a
      non-empty string; no name occurs twice. */
  lemma SearchQueryReadsBack(input: SearchInput)
    requires 1 <= input.pageSize <= MaxPageSize
    ensures var q := SearchQuery(input);
      && q[..3] == [("query", input.query), ("readMask", "names,emailAddresses,phoneNumbers,organizations,photos"),
                    ("sources", "DIRECTORY_SOURCE_TYPE_DOMAIN_PROFILE")]
      && q[3].0 == "pageSize" && ParseDecimal(q[3].1) == Some(input.pageSize)
      && DistinctNames(q)
      && Lookup(q, "pageToken") == (if Truthy(input.pageToken) then input.pageToken else None)
      && (!Truthy(input.pageToken) ==> |q| == 4)
  {
    var q := SearchQuery(input);
    DecimalRoundTrip(input.pageSize);
    var fixed := [("query", input.query), ("readMask", ReadMask), ("sources", DirectorySource), ("pageSize", Decimal(input.pageSize))];
    var token := if Truthy(input.pageToken) then [("pageToken", input.pageToken.value)] else [];
    assert q == fixed + token;
    LookupAppend(fixed, token, "pageToken");
    assert !HasParam(fixed, "pageToken");
  }
}
