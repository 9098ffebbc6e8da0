/** `contacts_list`: a GET on the caller's connections with a fixed field
    mask, a bounded page size, and two optional pagination parameters. */
module ContactsList {
  import opened Wrappers
  import opened JsonValues
  import opened Text
  import opened Http
  import opened Schema

  const PersonFieldsMask := "names,emailAddresses,phoneNumbers,organizations,photos"
  const ConnectionsPath := "/people/me/connections"
  const MaxPageSize := 1000
  const DefaultPageSize := 100

  datatype SortOrder = LastModifiedAscending | LastModifiedDescending | FirstNameAscending | LastNameAscending

  function SortOrderName(o: SortOrder): string {
    match o
    case LastModifiedAscending => "LAST_MODIFIED_ASCENDING"
    case LastModifiedDescending => "LAST_MODIFIED_DESCENDING"
    case FirstNameAscending => "FIRST_NAME_ASCENDING"
    case LastNameAscending => "LAST_NAME_ASCENDING"
  }

  /** The `sortOrder` enum: accepts exactly the four listed names. */
  function ParseSortOrder(s: string): (r: Option<SortOrder>)
    ensures forall o :: r == Some(o) <==> s == SortOrderName(o)
  {
    if s == "LAST_MODIFIED_ASCENDING" then Some(LastModifiedAscending)
    else if s == "LAST_MODIFIED_DESCENDING" then Some(LastModifiedDescending)
    else if s == "FIRST_NAME_ASCENDING" then Some(FirstNameAscending)
    else if s == "LAST_NAME_ASCENDING" then Some(LastNameAscending)
    else None
  }

  /** The arguments as the caller passes them. */
  datatype ListArgs = ListArgs(pageSize: Option<int>, pageToken: Option<string>, sortOrder: Option<string>)

  /** The arguments once validated and defaulted. */
  datatype ListInput = ListInput(pageSize: int, pageToken: Option<string>, sortOrder: Option<SortOrder>)

  /** Schema check: the page size defaults to 100 and must lie in
      [1, 1000]; a sort order must be one of the four names. */
  function ValidateListArgs(a: ListArgs): (r: Result<ListInput, ValidationError>)
    ensures r.Success? <==>
      (a.pageSize.None? || 1 <= a.pageSize.value <= MaxPageSize) && (a.sortOrder.None? || ParseSortOrder(a.sortOrder.value).Some?)
    ensures r.Success? ==> 1 <= r.value.pageSize <= MaxPageSize
    ensures r.Success? ==> r.value.pageSize == a.pageSize.GetOr(DefaultPageSize) && r.value.pageToken == a.pageToken
    ensures r.Success? ==> (r.value.sortOrder.Some? <==> a.sortOrder.Some?)
    ensures r.Success? && a.sortOrder.Some? ==> SortOrderName(r.value.sortOrder.value) == a.sortOrder.value
  {
    match PageSize(a.pageSize, MaxPageSize, DefaultPageSize)
    case Failure(e) => Failure(e)
    case Success(size) =>
      match a.sortOrder
      case None => Success(ListInput(size, a.pageToken, None))
      case Some(name) =>
        match ParseSortOrder(name)
        case None => Failure(NotInEnum("sortOrder", name))
        case Some(order) => Success(ListInput(size, a.pageToken, Some(order)))
  }

  /** The query list sends: mask and page size, then the page token if
      non-empty, then the sort order if given. */
  function ListQuery(input: ListInput): seq<Param>
    requires 1 <= input.pageSize
  {
    [("personFields", PersonFieldsMask), ("pageSize", Decimal(input.pageSize))]
    + (if Truthy(input.pageToken) then [("pageToken", input.pageToken.value)] else [])
    + (if input.sortOrder.Some? then [("sortOrder", SortOrderName(input.sortOrder.value))] else [])
  }

  function ListRequest(input: ListInput): Request
    requires 1 <= input.pageSize
  {
    Request(GET, ConnectionsPath, ListQuery(input), None)
  }

  /** The handler: sets two parameters, then one or both optional ones. */
  method BuildListRequest(input: ListInput) returns (req: Request)
    requires 1 <= input.pageSize <= MaxPageSize
    ensures req == ListRequest(input)
    ensures req.verb == GET && req.path == "/people/me/connections" && req.body.None?
  {
    var params := new SearchParams();
    params.Set("personFields", PersonFieldsMask);
    params.Set("pageSize", Decimal(input.pageSize));
    ghost var fixed := params.entries;
    assert fixed == [("personFields", PersonFieldsMask), ("pageSize", Decimal(input.pageSize))];

    if Truthy(input.pageToken) {
      SetParamAppends(params.entries, "pageToken", input.pageToken.value);
      params.Set("pageToken", input.pageToken.value);
    }
    ghost var paged := params.entries;

    // Every sort order name is a non-empty string, so its truthiness is its presence.
    if input.sortOrder.Some? {
      assert !HasParam(paged, "sortOrder");
      SetParamAppends(params.entries, "sortOrder", SortOrderName(input.sortOrder.value));
      params.Set("sortOrder", SortOrderName(input.sortOrder.value));
    }

    req := Request(GET, ConnectionsPath, params.entries, None);
  }

  /** What the server reads back from the query: the fixed mask, the page
      size as a decimal that parses back to it, the page token exactly
      when it is a non-empty string, and the sort order exactly when
      given; no name occurs twice. */
  lemma ListQueryReadsBack(input: ListInput)
    requires 1 <= input.pageSize <= MaxPageSize
    ensures var q := ListQuery(input);
      && q[0] == ("personFields", "names,emailAddresses,phoneNumbers,organizations,photos")
      && q[1].0 == "pageSize" && ParseDecimal(q[1].1) == Some(input.pageSize)
      && DistinctNames(q)
      && Lookup(q, "pageToken") == (if Truthy(input.pageToken) then input.pageToken else None)
      && Lookup(q, "sortOrder") == (if input.sortOrder.Some? then Some(SortOrderName(input.sortOrder.value)) else None)
  {
    var q := ListQuery(input);
    DecimalRoundTrip(input.pageSize);
    var fixed := [("personFields", PersonFieldsMask), ("pageSize", Decimal(input.pageSize))];
    var token := if Truthy(input.pageToken) then [("pageToken", input.pageToken.value)] else [];
    var order := if input.sortOrder.Some? then [("sortOrder", SortOrderName(input.sortOrder.value))] else [];
    assert q == fixed + token + order;
    LookupAppend(fixed + token, order, "pageToken");
    LookupAppend(fixed, token, "pageToken");
    LookupAppend(fixed + token, order, "sortOrder");
    LookupAppend(fixed, token, "sortOrder");
    assert !HasParam(fixed, "pageToken") && !HasParam(fixed, "sortOrder");
    assert !HasParam(token, "sortOrder");
  }

  /** When both optional parameters are sent, the page token comes first. */
  lemma ListTokenBeforeSortOrder(input: ListInput)
    requires 1 <= input.pageSize <= MaxPageSize
    requires Truthy(input.pageToken) && input.sortOrder.Some?
    ensures |ListQuery(input)| == 4
    ensures ListQuery(input)[2] == ("pageToken", input.pageToken.value)
    ensures ListQuery(input)[3] == ("sortOrder", SortOrderName(input.sortOrder.value))
  {
  }
}
