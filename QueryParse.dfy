/**
 * The comma-split query parsers of 493999/a1/a1.go. URL values are a map
 * from key to the list of its values (an absent key reads as the empty
 * list); filters, sort and pagination are parsed in that order and the
 * first error ends ParseQuery.
 */
module QueryParse {
  import opened Wrappers
  import opened GoStrings

  datatype Filter = Filter(key: string, value: string, operator: string)
  datatype Sort = Sort(key: string, order: string)
  datatype Pagination = Pagination(page: int, pageSize: int)

  /** The errors, each with the text its message quotes. */
  datatype ParseError =
    | InvalidFilter(rawFilter: string)
    | InvalidSort(raw: seq<string>)
    | InvalidPagination(raw: seq<string>)
    | InvalidPageNumber(part: string)
    | InvalidPageSize(part: string)

  type Values = map<string, seq<string>>

  /** url.Values indexing: the values of key, none when it is absent. */
  function Lookup(qr: Values, key: string): seq<string> {
    if key in qr then qr[key] else []
  }

  /** Removes the spaces around a field, as strings.Trim(x, " ") does. */
  function Field(s: string): string {
    Trim(s, IsBlank)
  }

  // ---------------------------------------------------------------------
  // parseFilters

  /** One raw filter: its three trimmed comma-separated parts, or None when it has not exactly three. */
  function ParseFilter(rawFilter: string): Option<Filter> {
    var parts := Split(rawFilter, ',');
    if |parts| != 3 then None else Some(Filter(Field(parts[0]), Field(parts[1]), Field(parts[2])))
  }

  /**
   * The filter loop with the reading of one string as a parameter: the
   * strings are read in order and the first unreadable one is the error.
   */
  function ParseEach(raw: seq<string>, parse: string -> Option<Filter>): Result<seq<Filter>, ParseError>
    decreases |raw|
  {
    if raw == [] then Ok([])
    else
      match parse(raw[0])
      case None => Err(InvalidFilter(raw[0]))
      case Some(f) =>
        match ParseEach(raw[1..], parse)
        case Ok(rest) => Ok([f] + rest)
        case Err(e) => Err(e)
  }

  /** What parseFilters returns. */
  function ParsedFilters(raw: seq<string>): Result<seq<Filter>, ParseError> {
    ParseEach(raw, ParseFilter)
  }

  /**
   * Success exactly when every string reads as a filter, the filters keeping
   * the input order; otherwise the error names the first string that does not.
   */
  lemma {:induction false} ParseEachSpec(raw: seq<string>, parse: string -> Option<Filter>)
    ensures var r := ParseEach(raw, parse);
      && (r.Ok? <==> forall i | 0 <= i < |raw| :: parse(raw[i]).Some?)
      && (r.Ok? ==> |r.value| == |raw| && forall i | 0 <= i < |raw| :: parse(raw[i]) == Some(r.value[i]))
      && (r.Err? ==> exists k | 0 <= k < |raw| ::
        && r.error == InvalidFilter(raw[k])
        && parse(raw[k]).None?
        && forall j | 0 <= j < k :: parse(raw[j]).Some?)
    decreases |raw|
  {
    if raw != [] && parse(raw[0]).Some? {
      var tail := raw[1..];
      ParseEachSpec(tail, parse);
      assert forall i | 0 <= i < |tail| :: tail[i] == raw[i + 1];
      match ParseEach(tail, parse)
      case Ok(rest) =>
        var filters := [parse(raw[0]).value] + rest;
        assert ParseEach(raw, parse) == Ok(filters);
        assert forall i | 0 < i < |raw| :: filters[i] == rest[i - 1];
      case Err(e) =>
        var k :| 0 <= k < |tail| && e == InvalidFilter(tail[k]) && parse(tail[k]).None?
          && forall j | 0 <= j < k :: parse(tail[j]).Some?;
        assert forall j | 0 < j < k + 1 :: raw[j] == tail[j - 1];
        assert e == InvalidFilter(raw[k + 1]) && parse(raw[k + 1]).None?;
    }
  }

  /** parseFilters succeeds exactly when every string has three parts, and names the first one that has not. */
  lemma ParsedFiltersSpec(raw: seq<string>)
    ensures var r := ParsedFilters(raw);
      && (r.Ok? <==> forall i | 0 <= i < |raw| :: ParseFilter(raw[i]).Some?)
      && (r.Ok? ==> |r.value| == |raw| && forall i | 0 <= i < |raw| :: ParseFilter(raw[i]) == Some(r.value[i]))
      && (r.Err? ==> exists k | 0 <= k < |raw| ::
        && r.error == InvalidFilter(raw[k])
        && ParseFilter(raw[k]).None?
        && forall j | 0 <= j < k :: ParseFilter(raw[j]).Some?)
  {
    ParseEachSpec(raw, ParseFilter);
  }

  /** The first unreadable string is the one the error names. */
  lemma {:induction false} ParseEachFirstBad(raw: seq<string>, parse: string -> Option<Filter>, k: nat)
    requires k < |raw| && parse(raw[k]).None?
    requires forall j | 0 <= j < k :: parse(raw[j]).Some?
    ensures ParseEach(raw, parse) == Err(InvalidFilter(raw[k]))
    decreases k
  {
    if k > 0 {
      assert forall j | 0 <= j < k - 1 :: raw[1..][j] == raw[j + 1];
      ParseEachFirstBad(raw[1..], parse, k - 1);
    }
  }

  /** Readable strings give their filters, in order. */
  lemma {:induction false} ParseEachAllGood(raw: seq<string>, parse: string -> Option<Filter>, filters: seq<Filter>)
    requires |filters| == |raw|
    requires forall j | 0 <= j < |raw| :: parse(raw[j]) == Some(filters[j])
    ensures ParseEach(raw, parse) == Ok(filters)
    decreases |raw|
  {
    if raw != [] {
      assert forall j | 0 <= j < |raw| - 1 :: raw[1..][j] == raw[j + 1] && filters[1..][j] == filters[j + 1];
      ParseEachAllGood(raw[1..], parse, filters[1..]);
      assert filters == [filters[0]] + filters[1..];
    }
  }

  /** The error names the first string without three parts. */
  lemma FirstBadFilter(raw: seq<string>, k: nat)
    requires k < |raw| && ParseFilter(raw[k]).None?
    requires forall j | 0 <= j < k :: ParseFilter(raw[j]).Some?
    ensures ParsedFilters(raw) == Err(InvalidFilter(raw[k]))
  {
    ParseEachFirstBad(raw, ParseFilter, k);
  }

  /** Strings that all have three parts are read into their filters, in order. */
  lemma AllGoodFilters(raw: seq<string>, filters: seq<Filter>)
    requires |filters| == |raw|
    requires forall j | 0 <= j < |raw| :: ParseFilter(raw[j]) == Some(filters[j])
    ensures ParsedFilters(raw) == Ok(filters)
  {
    ParseEachAllGood(raw, ParseFilter, filters);
  }

  method ParseFilters(raw: seq<string>) returns (r: Result<seq<Filter>, ParseError>)
    ensures r == ParsedFilters(raw)
  {
    var filters: seq<Filter> := [];
    var i := 0;
    while i < |raw|
      invariant 0 <= i <= |raw|
      invariant |filters| == i
      invariant forall j | 0 <= j < i :: ParseFilter(raw[j]) == Some(filters[j])
    {
      var parts := Split(raw[i], ',');
      if |parts| != 3 {
        FirstBadFilter(raw, i);
        return Err(InvalidFilter(raw[i]));
      }
      var filter := Filter(Field(parts[0]), Field(parts[1]), Field(parts[2]));
      filters := filters + [filter];
      i := i + 1;
    }
    AllGoodFilters(raw, filters);
    return Ok(filters);
  }

  // ---------------------------------------------------------------------
  // parseSort and parsePagination

  /** parseSort: exactly one value, of exactly two comma-separated parts. */
  function ParseSort(raw: seq<string>): (r: Result<Sort, ParseError>)
    ensures r.Ok? <==> |raw| == 1 && |Split(raw[0], ',')| == 2
    ensures r.Ok? ==> r.value == Sort(Field(Split(raw[0], ',')[0]), Field(Split(raw[0], ',')[1]))
    ensures r.Err? ==> r.error == InvalidSort(raw)
  {
    if |raw| != 1 then Err(InvalidSort(raw))
    else
      var parts := Split(raw[0], ',');
      if |parts| != 2 then Err(InvalidSort(raw))
      else Ok(Sort(Field(parts[0]), Field(parts[1])))
  }

  /**
   * parsePagination: exactly one value of two comma-separated parts, both
   * integers after trimming; a bad part is quoted untrimmed.
   */
  function ParsePagination(raw: seq<string>): (r: Result<Pagination, ParseError>)
    ensures r.Ok? <==>
      && |raw| == 1 && |Split(raw[0], ',')| == 2
      && Atoi(Field(Split(raw[0], ',')[0])).Some?
      && Atoi(Field(Split(raw[0], ',')[1])).Some?
    ensures r.Ok? ==>
      && Atoi(Field(Split(raw[0], ',')[0])) == Some(r.value.page)
      && Atoi(Field(Split(raw[0], ',')[1])) == Some(r.value.pageSize)
    ensures r.Err? && (|raw| != 1 || |Split(raw[0], ',')| != 2) ==> r.error == InvalidPagination(raw)
    ensures |raw| == 1 && |Split(raw[0], ',')| == 2 && Atoi(Field(Split(raw[0], ',')[0])).None? ==>
      r == Err(InvalidPageNumber(Split(raw[0], ',')[0]))
    ensures (&& |raw| == 1 && |Split(raw[0], ',')| == 2
             && Atoi(Field(Split(raw[0], ',')[0])).Some?
             && Atoi(Field(Split(raw[0], ',')[1])).None?) ==>
      r == Err(InvalidPageSize(Split(raw[0], ',')[1]))
  {
    if |raw| != 1 then Err(InvalidPagination(raw))
    else
      var parts := Split(raw[0], ',');
      if |parts| != 2 then Err(InvalidPagination(raw))
      else
        match Atoi(Field(parts[0]))
        case None => Err(InvalidPageNumber(parts[0]))
        case Some(page) =>
          match Atoi(Field(parts[1]))
          case None => Err(InvalidPageSize(parts[1]))
          case Some(pageSize) => Ok(Pagination(page, pageSize))
  }

  // ---------------------------------------------------------------------
  // ParseQuery

  datatype Query = Query(filters: seq<Filter>, sort: Sort, pagination: Pagination)

  /** The three parsers in order; the first error is the result. */
  function Parse(qr: Values): (r: Result<Query, ParseError>)
    ensures ParsedFilters(Lookup(qr, "filters")).Err? ==> r == Err(ParsedFilters(Lookup(qr, "filters")).error)
    ensures ParsedFilters(Lookup(qr, "filters")).Ok? && ParseSort(Lookup(qr, "sort")).Err? ==>
      r == Err(ParseSort(Lookup(qr, "sort")).error)
    ensures (&& ParsedFilters(Lookup(qr, "filters")).Ok? && ParseSort(Lookup(qr, "sort")).Ok?
             && ParsePagination(Lookup(qr, "pagination")).Err?) ==>
      r == Err(ParsePagination(Lookup(qr, "pagination")).error)
    ensures r.Ok? <==>
      ParsedFilters(Lookup(qr, "filters")).Ok? && ParseSort(Lookup(qr, "sort")).Ok?
      && ParsePagination(Lookup(qr, "pagination")).Ok?
    ensures r.Ok? ==> r.value == Query(ParsedFilters(Lookup(qr, "filters")).value,
      ParseSort(Lookup(qr, "sort")).value, ParsePagination(Lookup(qr, "pagination")).value)
  {
    match ParsedFilters(Lookup(qr, "filters"))
    case Err(e) => Err(e)
    case Ok(filters) =>
      match ParseSort(Lookup(qr, "sort"))
      case Err(e) => Err(e)
      case Ok(sort) =>
        match ParsePagination(Lookup(qr, "pagination"))
        case Err(e) => Err(e)
        case Ok(pagination) => Ok(Query(filters, sort, pagination))
  }

  /** Without a sort key no query parses, whatever else it holds. */
  lemma SortRequired(qr: Values)
    requires "sort" !in qr || qr["sort"] == []
    ensures Parse(qr).Err?
  {
  }

  /** A field that the parsers hand back unchanged: no comma, no spaces at the ends. */
  predicate Clean(s: string) {
    ',' !in s && (s == [] || (s[0] != ' ' && s[|s| - 1] != ' '))
  }

  predicate CleanQuery(q: Query) {
    && (forall i | 0 <= i < |q.filters| ::
         Clean(q.filters[i].key) && Clean(q.filters[i].value) && Clean(q.filters[i].operator))
    && Clean(q.sort.key) && Clean(q.sort.order)
    && MinInt64 <= q.pagination.page <= MaxInt64
    && MinInt64 <= q.pagination.pageSize <= MaxInt64
  }

  function EncodeFilter(f: Filter): string {
    Join([f.key, f.value, f.operator], ',')
  }

  /** The URL values that spell out a query. */
  function Encode(q: Query): Values {
    map[
      "filters" := seq(|q.filters|, i requires 0 <= i < |q.filters| => EncodeFilter(q.filters[i])),
      "sort" := [Join([q.sort.key, q.sort.order], ',')],
      "pagination" := [Join([Itoa(q.pagination.page), Itoa(q.pagination.pageSize)], ',')]
    ]
  }

  lemma FieldOfClean(s: string)
    requires Clean(s)
    ensures Field(s) == s
  {
    TrimUnchanged(s, IsBlank);
  }

  lemma ItoaClean(n: int)
    ensures Clean(Itoa(n))
  {
    var s := Itoa(n);
    assert forall i | 0 <= i < |s| :: s[i] != ',';
  }

  lemma FilterRoundTrip(f: Filter)
    requires Clean(f.key) && Clean(f.value) && Clean(f.operator)
    ensures ParseFilter(EncodeFilter(f)) == Some(f)
  {
    SplitJoin([f.key, f.value, f.operator], ',');
    FieldOfClean(f.key);
    FieldOfClean(f.value);
    FieldOfClean(f.operator);
  }

  lemma FiltersRoundTrip(filters: seq<Filter>, raw: seq<string>)
    requires |raw| == |filters|
    requires forall i | 0 <= i < |filters| :: raw[i] == EncodeFilter(filters[i])
    requires forall i | 0 <= i < |filters| ::
      Clean(filters[i].key) && Clean(filters[i].value) && Clean(filters[i].operator)
    ensures ParsedFilters(raw) == Ok(filters)
  {
    forall i | 0 <= i < |filters|
      ensures ParseFilter(raw[i]) == Some(filters[i])
    {
      FilterRoundTrip(filters[i]);
    }
    AllGoodFilters(raw, filters);
  }

  lemma SortRoundTrip(sort: Sort)
    requires Clean(sort.key) && Clean(sort.order)
    ensures ParseSort([Join([sort.key, sort.order], ',')]) == Ok(sort)
  {
    SplitJoin([sort.key, sort.order], ',');
    FieldOfClean(sort.key);
    FieldOfClean(sort.order);
  }

  lemma PaginationRoundTrip(p: Pagination)
    requires MinInt64 <= p.page <= MaxInt64 && MinInt64 <= p.pageSize <= MaxInt64
    ensures ParsePagination([Join([Itoa(p.page), Itoa(p.pageSize)], ',')]) == Ok(p)
  {
    var page := Itoa(p.page);
    var size := Itoa(p.pageSize);
    ItoaClean(p.page);
    ItoaClean(p.pageSize);
    SplitJoin([page, size], ',');
    FieldOfClean(page);
    FieldOfClean(size);
    AtoiItoa(p.page);
    AtoiItoa(p.pageSize);
  }

  /** Parsing the encoding of a clean query gives the query back. */
  lemma ParseEncode(q: Query)
    requires CleanQuery(q)
    ensures Parse(Encode(q)) == Ok(q)
  {
    var qr := Encode(q);
    assert Lookup(qr, "filters") == qr["filters"];
    assert Lookup(qr, "sort") == [Join([q.sort.key, q.sort.order], ',')];
    assert Lookup(qr, "pagination") == [Join([Itoa(q.pagination.page), Itoa(q.pagination.pageSize)], ',')];
    FiltersRoundTrip(q.filters, qr["filters"]);
    SortRoundTrip(q.sort);
    PaginationRoundTrip(q.pagination);
  }

  /** A filter written with '=' instead of three comma parts is refused. */
  lemma TwoPartFilterRefused()
    ensures ParsedFilters(["key1=value1,operator=eq"]) == Err(InvalidFilter("key1=value1,operator=eq"))
  {
    SplitJoin(["key1=value1", "operator=eq"], ',');
    assert Join(["key1=value1", "operator=eq"], ',') == "key1=value1,operator=eq";
  }

  /** QueryParameters: the fields ParseQuery fills in. */
  class QueryParameters {
    var filters: seq<Filter>
    var sort: Option<Sort>
    var pagination: Option<Pagination>

    constructor ()
      ensures filters == [] && sort == None && pagination == None
    {
      filters := [];
      sort := None;
      pagination := None;
    }

    /**
     * ParseQuery: each field is assigned in turn (empty or None when its
     * parser fails) and the first error is returned; fields after it keep
     * their old values.
     */
    method ParseQuery(qr: Values) returns (err: Option<ParseError>)
      modifies this
      ensures err.None? <==> Parse(qr).Ok?
      ensures err.Some? ==> Parse(qr) == Err(err.value)
      ensures Parse(qr).Ok? ==>
        sort.Some? && pagination.Some? && Query(filters, sort.value, pagination.value) == Parse(qr).value
      ensures var f := ParsedFilters(Lookup(qr, "filters"));
        && filters == (if f.Ok? then f.value else [])
        && (f.Err? ==> sort == old(sort) && pagination == old(pagination))
        && (f.Ok? ==>
              var s := ParseSort(Lookup(qr, "sort"));
              && sort == (if s.Ok? then Some(s.value) else None)
              && (s.Err? ==> pagination == old(pagination))
              && (s.Ok? ==>
                    var p := ParsePagination(Lookup(qr, "pagination"));
                    pagination == (if p.Ok? then Some(p.value) else None)))
    {
      var f := ParseFilters(Lookup(qr, "filters"));
      filters := if f.Ok? then f.value else [];
      if f.Err? {
        assert Parse(qr) == Err(f.error);
        return Some(f.error);
      }
      var s := ParseSort(Lookup(qr, "sort"));
      sort := if s.Ok? then Some(s.value) else None;
      if s.Err? {
        assert Parse(qr) == Err(s.error);
        return Some(s.error);
      }
      var p := ParsePagination(Lookup(qr, "pagination"));
      pagination := if p.Ok? then Some(p.value) else None;
      if p.Err? {
        assert Parse(qr) == Err(p.error);
        return Some(p.error);
      }
      assert Parse(qr) == Ok(Query(f.value, s.value, p.value));
      return None;
    }
  }
}
