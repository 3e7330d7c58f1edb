/** The paged-fetch state machine shared by the products, outbound and
    inbound hooks: the page and page size requested, the last data received,
    and the loading and error flags. The service call is external; its
    settled outcome is passed in. Fetches are taken one at a time. */
module PagedFetch {
  import opened Common
  import opened ApiConfig

  /** The page and page size a fetch asks the service for. */
  datatype PageRequest = PageRequest(page: int, limit: int)

  const DefaultPage := 1
  const DefaultLimit := 50

  class PagedResource<D> {
    /** The text recorded when the service throws something that is not an Error. */
    const fallback: string

    var page: int
    var limit: int
    var data: Option<D>
    var loading: bool
    var error: Option<string>

    /** The request a fetch would send now. */
    function Request(): PageRequest
      reads this
    {
      PageRequest(page, limit)
    }

    /** The hook as first called: nothing loaded, no error, at the given
        page and page size (1 and 50 unless overridden). */
    constructor (fallback: string, initialPage: int := DefaultPage, initialLimit: int := DefaultLimit)
      ensures this.fallback == fallback
      ensures page == initialPage && limit == initialLimit
      ensures data.None? && !loading && error.None?
    {
      this.fallback := fallback;
      page, limit := initialPage, initialLimit;
      data, loading, error := None, false, None;
    }

    /** The part of a fetch before the call is awaited: loading starts, the
        previous error is cleared, and the current page and size are sent. */
    method BeginFetch() returns (req: PageRequest)
      modifies this
      ensures req == PageRequest(page, limit)
      ensures loading && error.None?
      ensures page == old(page) && limit == old(limit) && data == old(data)
    {
      loading := true;
      error := None;
      req := PageRequest(page, limit);
    }

    /** The part of a fetch after the call settled: a result replaces the
        data; a failure records its text and keeps the previous data;
        loading ends either way. */
    method SettleFetch(outcome: Result<D, Thrown>)
      modifies this
      ensures !loading
      ensures page == old(page) && limit == old(limit)
      ensures outcome.Success? ==> data == Some(outcome.value) && error == old(error)
      ensures outcome.Failure? ==> data == old(data) && error == Some(ErrorText(outcome.error, fallback))
    {
      match outcome {
        case Success(d) =>
          data := Some(d);
        case Failure(err) =>
          error := Some(ErrorText(err, fallback));
      }
      loading := false;
    }

    /** A whole fetch (`fetchProducts`, `fetchOutbound`, `fetchInbounds`):
        it sends the current page and size, and afterwards holds exactly one
        of the outcome's data or its error. */
    method Fetch(outcome: Result<D, Thrown>) returns (req: PageRequest)
      modifies this
      ensures req == old(Request()) && Request() == old(Request())
      ensures !loading
      ensures outcome.Success? ==> data == Some(outcome.value) && error.None?
      ensures outcome.Failure? ==> data == old(data) && error == Some(ErrorText(outcome.error, fallback))
    {
      req := BeginFetch();
      SettleFetch(outcome);
    }

    /** `goToPage`: any page number, unchecked; nothing else changes. */
    method GoToPage(newPage: int)
      modifies this
      ensures page == newPage
      ensures limit == old(limit) && data == old(data) && loading == old(loading) && error == old(error)
    {
      page := newPage;
    }

    /** `changeLimit`: the new page size, and back to the first page
        whatever page was shown. */
    method ChangeLimit(newLimit: int)
      modifies this
      ensures limit == newLimit && page == 1
      ensures data == old(data) && loading == old(loading) && error == old(error)
    {
      limit := newLimit;
      page := 1;
    }

    /** `refresh`: fetch again with the page and size unchanged. */
    method Refresh(outcome: Result<D, Thrown>) returns (req: PageRequest)
      modifies this
      ensures req == old(Request()) && page == old(page) && limit == old(limit)
      ensures !loading
      ensures outcome.Success? ==> data == Some(outcome.value) && error.None?
      ensures outcome.Failure? ==> data == old(data) && error == Some(ErrorText(outcome.error, fallback))
    {
      req := Fetch(outcome);
    }
  }

  /** A failed refresh after a successful fetch still shows the earlier data,
      now with the error. */
  method StaleDataSurvivesFailure<D>(h: PagedResource<D>, first: D, err: Thrown)
    modifies h
    ensures h.data == Some(first)
    ensures h.error == Some(ErrorText(err, h.fallback)) && !h.loading
  {
    var _ := h.Fetch(Success(first));
    var _ := h.Refresh(Failure(err));
  }
}
