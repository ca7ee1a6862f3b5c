/**
 * The applications table: the filter predicate it installs on its data
 * source (a case-insensitive substring search over company, job title,
 * country and status), the normalised filter text `applyFilter` stores,
 * and the loading flag and rows set by the fetch.
 */
module ApplicationListing {
  import opened Wrappers
  import opened JsText

  /** The fields of one `ApplicationResponse` row the table shows; a missing value is `None`. */
  datatype ListingRow = ListingRow(
    id: string,
    companyName: Option<string>,
    jobTitle: Option<string>,
    country: Option<string>,
    status: Option<string>,
    applicationDate: Option<string>,
    publicationDate: Option<string>,
    jobLink: Option<string>)

  /**
   * `value.trim().toLowerCase()`: the lower-cased value with the whitespace
   * at either end removed, holding no capital letter.
   */
  function NormalizeFilter(value: string): (r: string)
    ensures exists k: nat :: StrippedAt(ToLower(value), r, k)
    ensures r == [] || (!IsJsWhitespace(r[0]) && !IsJsWhitespace(r[|r| - 1]))
    ensures forall i | 0 <= i < |r| :: !IsAsciiUpper(r[i])
    ensures r == "" <==> AllWhitespace(value)
  {
    TrimOfLower(value);
    ToLower(Trim(value))
  }

  /** Normalising a stored filter again leaves it unchanged. */
  lemma NormalizeFilterIdempotent(value: string)
    ensures NormalizeFilter(NormalizeFilter(value)) == NormalizeFilter(value)
  {
    var t := Trim(value);
    TrimOfLower(t);
    TrimIdempotent(value);
    ToLowerIdempotent(t);
  }

  /** `(field ?? '').toLowerCase().includes(f)` */
  predicate FieldContains(field: Option<string>, f: string) {
    Includes(ToLower(field.GetOr("")), f)
  }

  /** The `filterPredicate` installed in `ngOnInit`. */
  predicate RowMatches(row: ListingRow, filter: string) {
    var f := NormalizeFilter(filter);
    FieldContains(row.companyName, f) || FieldContains(row.jobTitle, f)
    || FieldContains(row.country, f) || FieldContains(row.status, f)
  }

  /** The normalised filter occurs somewhere in the lower-cased text of `field`. */
  ghost predicate Occurs(field: Option<string>, f: string) {
    exists k: nat :: OccursAt(ToLower(field.GetOr("")), f, k)
  }

  /**
   * A row matches exactly when the normalised filter occurs, at some
   * position, in the lower-cased text of one of the four searched fields.
   */
  lemma RowMatchesIffOccurs(row: ListingRow, filter: string)
    ensures var f := NormalizeFilter(filter);
      RowMatches(row, filter) <==>
        Occurs(row.companyName, f) || Occurs(row.jobTitle, f) || Occurs(row.country, f) || Occurs(row.status, f)
  {
    var f := NormalizeFilter(filter);
    IncludesIffOccurs(ToLower(row.companyName.GetOr("")), f);
    IncludesIffOccurs(ToLower(row.jobTitle.GetOr("")), f);
    IncludesIffOccurs(ToLower(row.country.GetOr("")), f);
    IncludesIffOccurs(ToLower(row.status.GetOr("")), f);
  }

  /** A blank filter (empty or whitespace only) matches every row. */
  lemma BlankFilterMatchesAll(row: ListingRow, filter: string)
    requires AllWhitespace(filter)
    ensures RowMatches(row, filter)
  {
    IncludesEmpty(ToLower(row.companyName.GetOr("")), "");
  }

  /** Missing fields read as `''`: a row with none of the four fields matches only a blank filter. */
  lemma EmptyRowMatchesOnlyBlank(row: ListingRow, filter: string)
    requires row.companyName.None? && row.jobTitle.None? && row.country.None? && row.status.None?
    ensures RowMatches(row, filter) <==> AllWhitespace(filter)
  {
    IncludesEmpty("", NormalizeFilter(filter));
  }

  /** The table filters with the stored, normalised text: filtering by it is filtering by what was typed. */
  lemma MatchesNormalizedFilter(row: ListingRow, value: string)
    ensures RowMatches(row, NormalizeFilter(value)) == RowMatches(row, value)
  {
    NormalizeFilterIdempotent(value);
    SameNormalFormSameMatches(row, NormalizeFilter(value), value);
  }

  /** Two filter texts that normalise alike select the same rows. */
  lemma SameNormalFormSameMatches(row: ListingRow, a: string, b: string)
    requires NormalizeFilter(a) == NormalizeFilter(b)
    ensures RowMatches(row, a) == RowMatches(row, b)
  {
  }

  /** The rows that match `filter`, in their original order. */
  function FilterRows(rows: seq<ListingRow>, filter: string): (r: seq<ListingRow>)
    ensures |r| <= |rows|
    ensures forall row | row in r :: row in rows && RowMatches(row, filter)
    ensures forall row | row in rows && RowMatches(row, filter) :: row in r
  {
    if rows == [] then []
    else
      var rest := FilterRows(rows[1..], filter);
      if RowMatches(rows[0], filter) then [rows[0]] + rest else rest
  }

  /** A blank filter keeps every row. */
  lemma {:induction false} FilterRowsBlank(rows: seq<ListingRow>, filter: string)
    requires AllWhitespace(filter)
    ensures FilterRows(rows, filter) == rows
    decreases |rows|
  {
    if rows != [] {
      BlankFilterMatchesAll(rows[0], filter);
      FilterRowsBlank(rows[1..], filter);
    }
  }

  class ApplicationTable {
    /** `dataSource.data` */
    var data: seq<ListingRow>
    /** `dataSource.filter` */
    var filter: string
    var loading: bool
    /** The page index of the attached paginator, or `None` while no paginator is attached. */
    var paginator: Option<nat>

    /** A new table: no rows, no filter, loading, no paginator. */
    constructor()
      ensures data == [] && filter == "" && loading && paginator.None?
    {
      data := [];
      filter := "";
      loading := true;
      paginator := None;
    }

    /**
     * The rows the data source shows: all of them for the empty filter,
     * otherwise those passing the filter predicate. The shortcut agrees
     * with the predicate, so the shown rows are always the matching ones.
     */
    function FilteredData(): (r: seq<ListingRow>)
      reads this`data, this`filter
      ensures r == FilterRows(data, filter)
    {
      if filter == "" then
        FilterRowsBlank(data, filter);
        data
      else FilterRows(data, filter)
    }

    /** The `matPaginator` setter: a defined paginator is attached, an undefined one is ignored. */
    method SetPaginator(pageIndex: Option<nat>)
      modifies this`paginator
      ensures paginator == if pageIndex.Some? then pageIndex else old(paginator)
    {
      if pageIndex.Some? {
        paginator := pageIndex;
      }
    }

    /**
     * `applyFilter(value)`: stores the normalised text and returns an
     * attached paginator to its first page. Afterwards the table shows
     * exactly the rows matching `value`.
     */
    method ApplyFilter(value: string)
      modifies this`filter, this`paginator
      ensures filter == NormalizeFilter(value)
      ensures paginator == if old(paginator).Some? then Some(0) else None
      ensures forall row :: row in FilteredData() <==> row in data && RowMatches(row, value)
    {
      filter := NormalizeFilter(value);
      if paginator.Some? {
        paginator := Some(0);
      }
      forall row | row in data
        ensures RowMatches(row, filter) == RowMatches(row, value)
      {
        MatchesNormalizedFilter(row, value);
      }
    }

    /** The fetch succeeded: its rows replace the data and loading ends. */
    method OnFetchSucceeded(rows: seq<ListingRow>)
      modifies this`data, this`loading
      ensures data == rows && !loading
    {
      data := rows;
      loading := false;
    }

    /** The fetch failed: the data is left as it is and loading ends. */
    method OnFetchFailed()
      modifies this`loading
      ensures !loading
    {
      loading := false;
    }
  }
}
