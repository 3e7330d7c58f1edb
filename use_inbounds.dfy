/** `useInbounds`: the paged-fetch hook over inbound files. */
module InboundsHook {
  import opened Records
  import opened PagedFetch

  const FallbackMessage := "Failed to fetch inbound files"

  method UseInbounds(initialPage: int := DefaultPage, initialLimit: int := DefaultLimit)
    returns (h: PagedResource<InboundList>)
    ensures fresh(h) && h.fallback == FallbackMessage
    ensures h.page == initialPage && h.limit == initialLimit
    ensures h.data.None? && !h.loading && h.error.None?
  {
    h := new PagedResource(FallbackMessage, initialPage, initialLimit);
  }
}
