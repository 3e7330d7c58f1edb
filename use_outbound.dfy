/** `useOutbound`: the paged-fetch hook over outbound files. */
module OutboundHook {
  import opened Records
  import opened PagedFetch

  const FallbackMessage := "Failed to fetch outbound files"

  method UseOutbound(initialPage: int := DefaultPage, initialLimit: int := DefaultLimit)
    returns (h: PagedResource<OutboundList>)
    ensures fresh(h) && h.fallback == FallbackMessage
    ensures h.page == initialPage && h.limit == initialLimit
    ensures h.data.None? && !h.loading && h.error.None?
  {
    h := new PagedResource(FallbackMessage, initialPage, initialLimit);
  }
}
