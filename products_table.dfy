/** The product-integration table: which card it shows for the hook's
    state, the status badge of each row, and its pagination bar. */
module ProductsTable {
  import opened Common
  import opened Records
  import opened Badges
  import opened Pagination
  import OutboundTable

  /** `getStatusBadge`: "completed" and "waiting_integration" get their own
      badges; every other value is shown as an error. */
  function StatusBadge(status: string): (b: Badge)
    ensures b == Badge(Positive, "Completed") <==> status == "completed"
    ensures b == Badge(Pending, "Waiting Integration") <==> status == "waiting_integration"
    ensures b == Badge(Negative, "Error") <==> status != "completed" && status != "waiting_integration"
  {
    if status == "completed" then Badge(Positive, "Completed")
    else if status == "waiting_integration" then Badge(Pending, "Waiting Integration")
    else Badge(Negative, "Error")
  }

  /** A table row: the source file name and its status badge. */
  datatype ProductRow = ProductRow(sourceFileName: string, status: Badge)

  /** `data.data.map(...)`: the file name and the badge of the status. */
  function Row(item: ProductRecord): (r: ProductRow)
    ensures r.sourceFileName == item.sourceFileName && r.status == StatusBadge(item.status)
    ensures r.status.tone == Positive <==> item.status == "completed"
    ensures r.status.tone == Pending <==> item.status == "waiting_integration"
    ensures r.status.tone == Negative <==> item.status != "completed" && item.status != "waiting_integration"
  {
    ProductRow(item.sourceFileName, StatusBadge(item.status))
  }

  datatype TableView =
    | ErrorCard(message: string)
    | LoadingCard
    | TableCard(rows: seq<ProductRow>, emptyNotice: Option<string>, pagination: Option<PaginationView>)

  const EmptyNotice := "No products found"

  /** `renderPagination`: no bar without data; otherwise the bar for the
      page and page count the server reported. */
  function RenderPagination(data: Option<ProductsHeaderData>): (v: Option<PaginationView>)
    ensures v.Some? <==> data.Some?
    ensures data.Some? ==> v.value == View(data.value.pagination.page, data.value.pagination.totalPages)
    ensures data.Some? ==> |v.value.items| <= 7
    ensures data.Some? ==>
      (v.value.previous.target.Some? <==> data.value.pagination.page > 1) &&
      (v.value.next.target.Some? <==> data.value.pagination.page < data.value.pagination.totalPages)
  {
    match data
    case None => None
    case Some(d) =>
      WindowLength(d.pagination.page, d.pagination.totalPages);
      Some(View(d.pagination.page, d.pagination.totalPages))
  }

  /** Both tables draw the same bar for the same page and page count. */
  lemma SameBarAsOutbound(products: Option<ProductsHeaderData>, outbound: Option<OutboundList>)
    requires products.Some? <==> outbound.Some?
    requires products.Some? ==>
      products.value.pagination.page == outbound.value.pagination.page &&
      products.value.pagination.totalPages == outbound.value.pagination.totalPages
    ensures RenderPagination(products) == OutboundTable.RenderPagination(outbound)
  {
  }

  /** The card shown: a (non-empty) error wins, then the loading card;
      otherwise the table of rows, the empty notice when the data holds no
      rows, and the pagination bar. */
  function Render(data: Option<ProductsHeaderData>, loading: bool, error: Option<string>): (v: TableView)
    ensures v.ErrorCard? <==> Truthy(error)
    ensures v.ErrorCard? ==> v.message == "Error loading products: " + error.value
    ensures v.LoadingCard? <==> !Truthy(error) && loading
    ensures v.TableCard? ==> v.pagination == RenderPagination(data)
    ensures v.TableCard? ==> (v.emptyNotice.Some? <==> data.Some? && |data.value.items| == 0)
    ensures v.TableCard? ==> |v.rows| == (if data.Some? then |data.value.items| else 0)
    ensures v.TableCard? ==> forall i :: 0 <= i < |v.rows| ==> v.rows[i] == Row(data.value.items[i])
  {
    if Truthy(error) then ErrorCard("Error loading products: " + error.value)
    else if loading then LoadingCard
    else
      var items := if data.Some? then data.value.items else [];
      TableCard(
        seq(|items|, i requires 0 <= i < |items| => Row(items[i])),
        if data.Some? && |data.value.items| == 0 then Some(EmptyNotice) else None,
        RenderPagination(data))
  }
}
