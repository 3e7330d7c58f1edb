/** The outbound files table: which card it shows for the hook's state, the
    yes/no badges of each row, and its pagination bar. */
module OutboundTable {
  import opened Common
  import opened Records
  import opened Badges
  import opened Pagination

  /** `getBooleanBadge`: a green badge with `trueText` for true, a grey one
      with `falseText` for false. */
  function BooleanBadge(value: bool, trueText: string := "Yes", falseText: string := "No"): (b: Badge)
    ensures b.tone == Positive <==> value
    ensures b.tone == Neutral <==> !value
    ensures value ==> b.text == trueText
    ensures !value ==> b.text == falseText
  {
    if value then Badge(Positive, trueText) else Badge(Neutral, falseText)
  }

  /** Without explicit texts the badges read "Yes" and "No". */
  lemma DefaultBadgeTexts(value: bool)
    ensures BooleanBadge(value).text == (if value then "Yes" else "No")
  {
  }

  /** A table row: the file name and the five progress badges. */
  datatype OutboundRow = OutboundRow(fileName: string, progress: seq<Badge>)

  /** The five progress flags of an item, in the order of the table's columns. */
  function Flags(item: OutboundItem): seq<bool>
  {
    [item.salesOrderToWms, item.invoiceRequested, item.invoiceReceived,
     item.invoiceToStralog, item.invoiceConfirmationToSftp]
  }

  /** `outboundData.data.map(...)`: the file name, then one badge per flag in
      column order, green "Yes" for a set flag and grey "No" otherwise. */
  function Row(item: OutboundItem): (r: OutboundRow)
    ensures r.fileName == item.sourceFileName && |r.progress| == 5
    ensures forall i :: 0 <= i < 5 ==>
      r.progress[i] == (if Flags(item)[i] then Badge(Positive, "Yes") else Badge(Neutral, "No"))
  {
    OutboundRow(item.sourceFileName, [
      BooleanBadge(item.salesOrderToWms),
      BooleanBadge(item.invoiceRequested),
      BooleanBadge(item.invoiceReceived),
      BooleanBadge(item.invoiceToStralog),
      BooleanBadge(item.invoiceConfirmationToSftp)])
  }

  datatype TableView =
    | ErrorCard(message: string)
    | LoadingCard
    | TableCard(rows: seq<OutboundRow>, emptyNotice: Option<string>, pagination: Option<PaginationView>)

  const EmptyNotice := "No outbound files found"

  /** `renderPagination`: no bar without data; otherwise the bar for the
      page and page count the server reported. */
  function RenderPagination(data: Option<OutboundList>): (v: Option<PaginationView>)
    ensures v.Some? <==> data.Some?
    ensures data.Some? ==> v.value == View(data.value.pagination.page, data.value.pagination.totalPages)
    ensures data.Some? ==> |v.value.items| <= 7
    ensures data.Some? ==>
      (v.value.previous.target.Some? <==> data.value.pagination.page > 1) &&
      (v.value.next.target.Some? <==> data.value.pagination.page < data.value.pagination.totalPages)
  {
    match data
    case None => None
    case Some(d) =>
      WindowLength(d.pagination.page, d.pagination.totalPages);
      Some(View(d.pagination.page, d.pagination.totalPages))
  }

  /** The card shown: a (non-empty) error wins, then the loading card;
      otherwise the table of rows, the empty notice when the data holds no
      rows, and the pagination bar. */
  function Render(data: Option<OutboundList>, loading: bool, error: Option<string>): (v: TableView)
    ensures v.ErrorCard? <==> Truthy(error)
    ensures v.ErrorCard? ==> v.message == "Error loading outbound files: " + error.value
    ensures v.LoadingCard? <==> !Truthy(error) && loading
    ensures v.TableCard? ==> v.pagination == RenderPagination(data)
    ensures v.TableCard? ==> (v.emptyNotice.Some? <==> data.Some? && |data.value.items| == 0)
    ensures v.TableCard? ==> |v.rows| == (if data.Some? then |data.value.items| else 0)
    ensures v.TableCard? ==> forall i :: 0 <= i < |v.rows| ==> v.rows[i] == Row(data.value.items[i])
  {
    if Truthy(error) then ErrorCard("Error loading outbound files: " + error.value)
    else if loading then LoadingCard
    else
      var items := if data.Some? then data.value.items else [];
      TableCard(
        seq(|items|, i requires 0 <= i < |items| => Row(items[i])),
        if data.Some? && |data.value.items| == 0 then Some(EmptyNotice) else None,
        RenderPagination(data))
  }
}
