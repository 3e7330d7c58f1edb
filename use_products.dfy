/** `useProducts`: the paged-fetch hook over product-integration records. */
module ProductsHook {
  import opened Records
  import opened PagedFetch

  const FallbackMessage := "Failed to fetch products"

  method UseProducts(initialPage: int := DefaultPage, initialLimit: int := DefaultLimit)
    returns (h: PagedResource<ProductsHeaderData>)
    ensures fresh(h) && h.fallback == FallbackMessage
    ensures h.page == initialPage && h.limit == initialLimit
    ensures h.data.None? && !h.loading && h.error.None?
  {
    h := new PagedResource(FallbackMessage, initialPage, initialLimit);
  }
}
