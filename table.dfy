/**
 * The state machine of the table component: the state cells it keeps, the fetch it starts
 * for the current page, the two ways that fetch ends, the filter menu, the clear button,
 * the text box and the pagination control.
 */
module Table {
  import opened Wrappers
  import opened Decimal
  import opened Records
  import opened Filter

  /** The fixed number of records requested per page. */
  const PAGE_SIZE: nat := 5

  const ENDPOINT: string := "https://jsonplaceholder.typicode.com/users"

  /** One request to the collection endpoint. */
  datatype PageRequest = PageRequest(page: nat, limit: nat)

  const PAGE_PARAM: string := ENDPOINT + "?_page="
  const LIMIT_PARAM: string := "&_limit="

  /** The URL the fetch is issued to. */
  function RequestUrl(req: PageRequest): (url: string)
    ensures |PAGE_PARAM| < |url| && url[..|PAGE_PARAM|] == PAGE_PARAM
  {
    PAGE_PARAM + Show(req.page) + LIMIT_PARAM + Show(req.limit)
  }

  /** The server reads the page number back from the URL as it was requested. */
  lemma UrlCarriesPage(req: PageRequest)
    ensures var url := RequestUrl(req);
      |PAGE_PARAM| <= |url| && url[..|PAGE_PARAM|] == PAGE_PARAM &&
      ParseInt(url[|PAGE_PARAM|..]) == Int(req.page)
  {
    var url := RequestUrl(req);
    var rest := LIMIT_PARAM + Show(req.limit);
    assert url == PAGE_PARAM + (Show(req.page) + rest);
    assert url[|PAGE_PARAM|..] == Show(req.page) + rest;
    ParseShowFollowed(req.page, rest);
  }

  /** ... and the limit from its end. */
  lemma UrlCarriesLimit(req: PageRequest)
    ensures var url := RequestUrl(req); var k := |Show(req.limit)|;
      k <= |url| && url[..|url| - k] == PAGE_PARAM + Show(req.page) + LIMIT_PARAM &&
      ParseInt(url[|url| - k..]) == Int(req.limit)
  {
    var url := RequestUrl(req);
    var k := |Show(req.limit)|;
    assert url[|url| - k..] == Show(req.limit);
    assert url[..|url| - k] == PAGE_PARAM + Show(req.page) + LIMIT_PARAM;
    ParseShow(req.limit);
  }

  /** `parseInt(totalCount ?? "1")`: the total-count header, read as a number, and 1 when it is absent. */
  function TotalFromHeader(header: Option<string>): (total: ParsedInt)
    ensures header.None? ==> total == Int(1)
    ensures header.Some? && header.value == [] ==> total == NaN
  {
    ParseShow(1);
    assert Show(1) == "1";
    ParseInt(if header.Some? then header.value else "1")
  }

  /** An absent header counts as 1; a header holding a decimal number counts as that number. */
  lemma TotalFromHeaderCases(n: nat)
    ensures TotalFromHeader(None) == Int(1)
    ensures TotalFromHeader(Some(Show(n))) == Int(n)
  {
    ParseShow(1);
    assert Show(1) == "1";
    ParseShow(n);
  }

  /**
   * A header that is present but does not start with a digit after its white space and sign,
   * the empty one for instance, makes the total NaN.
   */
  lemma TotalFromHeaderNoLeadingDigit(h: string)
    requires !StartsWithDigit(Unsigned(SkipSpace(h)))
    ensures TotalFromHeader(Some(h)) == NaN
  {
    ParseNoLeadingDigit(h);
  }

  class TableComponent {
    var dataSource: seq<User>
    var loadingData: bool
    var pageNumber: nat
    var totalPages: ParsedInt
    var selectedFilter: FilterKey
    /** The value of the text box the filter reference points to. */
    var inputText: string
    /** The body of the most recent successful load. */
    ghost var lastPage: seq<User>

    /**
     * The page is 1-based, the clear key is never the selected filter, and the rows shown
     * are always the last loaded page with some rows left out and the order kept.
     */
    ghost predicate Valid()
      reads this`pageNumber, this`selectedFilter, this`dataSource, this`lastPage
      ensures Valid() ==> |dataSource| <= |lastPage| && forall x :: x in dataSource ==> x in lastPage
    {
      pageNumber >= 1 && selectedFilter != ClearFilters && IsSubsequence(dataSource, lastPage) &&
      (SubsequenceContained(dataSource, lastPage); true)
    }

    /** The initial values of the state cells. */
    constructor ()
      ensures Valid()
      ensures dataSource == [] && lastPage == [] && !loadingData && pageNumber == 1
      ensures totalPages == Int(1) && selectedFilter == FilterByName && inputText == ""
    {
      dataSource := [];
      loadingData := false;
      pageNumber := 1;
      totalPages := Int(1);
      selectedFilter := FilterByName;
      inputText := "";
      lastPage := [];
    }

    /** The start of `fetchData`: raise the loading flag and request the current page. */
    method FetchData() returns (req: PageRequest)
      requires Valid()
      modifies this`loadingData
      ensures Valid()
      ensures loadingData
      ensures req == PageRequest(pageNumber, PAGE_SIZE)
      ensures ParseInt(RequestUrl(req)[|PAGE_PARAM|..]) == Int(pageNumber)
    {
      loadingData := true;
      req := PageRequest(pageNumber, PAGE_SIZE);
      UrlCarriesPage(req);
    }

    /** `fetchData` after the response and its body arrived: the body replaces the rows entirely. */
    method LoadSucceeded(header: Option<string>, body: seq<User>)
      requires Valid()
      modifies this`dataSource, this`totalPages, this`loadingData, this`lastPage
      ensures Valid()
      ensures dataSource == body && lastPage == body
      ensures totalPages == TotalFromHeader(header)
      ensures !loadingData
    {
      SetTotalPages(header);
      SetDataSource(body);
      loadingData := false;
    }

    /** `setTotalPages(parseInt(totalCount ?? "1"))` of a load. */
    method SetTotalPages(header: Option<string>)
      requires Valid()
      modifies this`totalPages
      ensures Valid()
      ensures totalPages == TotalFromHeader(header)
    {
      totalPages := TotalFromHeader(header);
    }

    /** `setDataSource(data)` of a load: the body becomes the rows and the last loaded page. */
    method SetDataSource(body: seq<User>)
      requires Valid()
      modifies this`dataSource, this`lastPage
      ensures Valid()
      ensures dataSource == body && lastPage == body
    {
      SubsequenceReflexive(body);
      dataSource, lastPage := body, body;
    }

    /** `fetchData` after the fetch or the body failed: only the loading flag drops. */
    method LoadFailed()
      requires Valid()
      modifies this`loadingData
      ensures Valid()
      ensures !loadingData
      ensures dataSource == old(dataSource) && totalPages == old(totalPages)
      ensures pageNumber == old(pageNumber) && selectedFilter == old(selectedFilter)
    {
      loadingData := false;
    }

    /** The clear button, also used after a new filter key is picked: empty the text box and reload. */
    method ClearInput() returns (req: PageRequest)
      requires Valid()
      modifies this`inputText, this`loadingData
      ensures Valid()
      ensures inputText == "" && loadingData
      ensures selectedFilter == old(selectedFilter) && dataSource == old(dataSource)
      ensures req == PageRequest(pageNumber, PAGE_SIZE)
    {
      inputText := "";
      req := FetchData();
    }

    /**
     * A click on the filter menu. The clear key only reloads the current page; any other key
     * becomes the selected filter, and the text box is emptied before the reload.
     */
    method FilterSelection(key: FilterKey) returns (req: PageRequest)
      requires Valid()
      modifies this`selectedFilter, this`inputText, this`loadingData
      ensures Valid()
      ensures loadingData && dataSource == old(dataSource)
      ensures key == ClearFilters ==> selectedFilter == old(selectedFilter) && inputText == old(inputText)
      ensures key != ClearFilters ==> selectedFilter == key && inputText == ""
      ensures req == PageRequest(pageNumber, PAGE_SIZE)
    {
      if key == ClearFilters {
        req := FetchData();
        return;
      }
      selectedFilter := key;
      req := ClearInput();
    }

    /** A change event of the text box: narrow the current rows by the new text. */
    method HandleFilter(value: string)
      requires Valid()
      modifies this`dataSource, this`inputText
      ensures Valid()
      ensures inputText == value
      ensures dataSource == ApplyQuery(old(dataSource), selectedFilter, value)
    {
      inputText := value;
      ghost var before := dataSource;
      if selectedFilter == FilterByName {
        dataSource := FilterRows(dataSource, FilterByName, value);
      } else if selectedFilter == FilterByEmail {
        dataSource := FilterRows(dataSource, FilterByEmail, value);
      }
      ApplyQueryNarrows(before, selectedFilter, value);
      SubsequenceTransitive(dataSource, before, lastPage);
    }

    /**
     * The pagination control's page change. The effect keyed on the page number reloads only
     * when the number actually changes; `None` means no fetch was started.
     */
    method ChangePage(page: nat) returns (req: Option<PageRequest>)
      requires Valid()
      requires page >= 1
      modifies this`pageNumber, this`loadingData
      ensures Valid()
      ensures pageNumber == page
      ensures page == old(pageNumber) ==> req == None && loadingData == old(loadingData)
      ensures page != old(pageNumber) ==> req == Some(PageRequest(page, PAGE_SIZE)) && loadingData
    {
      if page == pageNumber {
        req := None;
        return;
      }
      pageNumber := page;
      var r := FetchData();
      req := Some(r);
    }
  }

  /** Mounting creates the state cells and runs the page effect once, requesting page 1. */
  method Mount() returns (t: TableComponent, req: PageRequest)
    ensures fresh(t) && t.Valid()
    ensures t.loadingData && t.dataSource == [] && t.lastPage == [] && t.pageNumber == 1
    ensures t.totalPages == Int(1) && t.selectedFilter == FilterByName && t.inputText == ""
    ensures req == PageRequest(1, PAGE_SIZE)
  {
    t := new TableComponent();
    req := t.FetchData();
  }

  /**
   * Picking a filter key and then loading the page shows the fresh unfiltered page,
   * whatever the earlier queries had removed.
   */
  method SelectThenLoad(t: TableComponent, key: FilterKey, header: Option<string>, body: seq<User>)
    returns (req: PageRequest)
    requires t.Valid()
    modifies t
    ensures t.Valid()
    ensures t.dataSource == body && !t.loadingData
    ensures t.pageNumber == old(t.pageNumber) && t.totalPages == TotalFromHeader(header)
    ensures key != ClearFilters ==> t.selectedFilter == key && t.inputText == ""
    ensures key == ClearFilters ==> t.selectedFilter == old(t.selectedFilter) && t.inputText == old(t.inputText)
    ensures req == PageRequest(old(t.pageNumber), PAGE_SIZE)
  {
    req := t.FilterSelection(key);
    t.LoadSucceeded(header, body);
  }
}
